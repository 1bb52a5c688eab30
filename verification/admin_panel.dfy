/** The admin panel: the list of every property, or the property form opened on one of them or
    on a new one. */
module AdminPanel {
  import opened Wrappers
  import opened Types
  import PropertyForm
  import Seqs

  /** The panel's state: the property being edited and whether a new one is being created. */
  datatype State = State(editing: Option<Property>, creatingNew: bool)

  /** The panel as first shown: the list. */
  const Initial: State := State(None, false)

  /** The form shows while creating or editing; otherwise the list does. */
  predicate FormShown(st: State) {
    st.creatingNew || st.editing.Some?
  }

  /** `handleEdit`: the form opens on the property. */
  function EditClick(st: State, p: Property): (r: State)
    ensures r.editing == Some(p) && !r.creatingNew && FormShown(r)
  {
    State(Some(p), false)
  }

  /** `handleCreateNew`: the form opens empty. */
  function CreateNew(st: State): (r: State)
    ensures r.editing.None? && r.creatingNew && FormShown(r)
  {
    State(None, true)
  }

  /** `handleCancel`: back to the list. */
  function Cancel(st: State): (r: State)
    ensures r.editing.None? && !r.creatingNew && !FormShown(r)
  {
    State(None, false)
  }

  /** `handleSave`: the property goes to the app exactly once, then back to the list. */
  function Save(st: State, p: Property): (r: (State, seq<Property>))
    ensures r.1 == [p]
    ensures r.0.editing.None? && !r.0.creatingNew && !FormShown(r.0)
  {
    (State(None, false), [p])
  }

  /** Editing a property and saving the form unchanged sends the same property, provided it has
      the shape a submission produces. */
  lemma EditUnchangedSavesSame(st: State, p: Property, stamp: string)
    requires p.tags.Some? && p.lineOfficialUrl.Some? && |p.photos| > 0
    requires Seqs.NoDuplicates(p.amenities) && Seqs.NoDuplicates(p.tags.value)
    ensures var panel := EditClick(st, p);
      Save(panel, PropertyForm.Submit(panel.editing, PropertyForm.Load(panel.editing), stamp)).1 == [p]
  {
    PropertyForm.LoadThenSubmit(p, stamp);
  }

  /** A property created from the panel is saved with a fresh `prop-` id and no reviews, and the
      panel returns to the list. */
  lemma CreateSavesNew(st: State, form: PropertyForm.Form, stamp: string)
    ensures var panel := CreateNew(st);
      var (after, sent) := Save(panel, PropertyForm.Submit(panel.editing, form, stamp));
      && |sent| == 1 && sent[0].id == PrefixedId(PropertyPrefix, stamp) && sent[0].reviews == [] && sent[0].rating == 0
      && !FormShown(after)
  {
  }
}
