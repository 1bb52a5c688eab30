/** The owner dashboard: three tabs (analytics, property editing, announcements) and, on the
    announcements tab, a form that is either creating a new announcement or editing one. */
module OwnerDashboard {
  import opened Wrappers
  import opened Types
  import AnnouncementForm

  /** The dashboard's tabs. */
  datatype Tab = Analytics | Edit | Announcements

  /** The dashboard's state: the tab shown, the announcement being edited, and whether a new one
      is being written. */
  datatype State = State(tab: Tab, editing: Option<Announcement>, creating: bool)

  /** What the dashboard asks the app to do with an announcement. */
  datatype Dispatch =
    | AddAnnouncement(propertyId: string, data: AnnouncementFields)
    | UpdateAnnouncement(propertyId: string, announcement: Announcement)
    | DeleteAnnouncement(propertyId: string, announcementId: string)

  /** The dashboard as first shown. */
  const Initial: State := State(Analytics, None, false)

  /** At most one of the two form modes is on. */
  predicate ModesExclusive(st: State) {
    !(st.creating && st.editing.Some?)
  }

  /** The announcement form shows while creating or editing. */
  predicate FormShown(st: State) {
    st.creating || st.editing.Some?
  }

  /** Clicking a tab shows it. */
  function SelectTab(st: State, tab: Tab): (r: State)
    ensures r.tab == tab && r.editing == st.editing && r.creating == st.creating
  {
    st.(tab := tab)
  }

  /** `handleSaveProperty`: the edited property goes to the app once and the dashboard returns to
      the analytics tab. */
  function SaveProperty(st: State, p: Property): (r: (State, seq<Property>))
    ensures r.1 == [p]
    ensures r.0.tab == Analytics && r.0.editing == st.editing && r.0.creating == st.creating
  {
    (st.(tab := Analytics), [p])
  }

  /** Cancelling the property form returns to the analytics tab. */
  function CancelPropertyEdit(st: State): (r: State)
    ensures r.tab == Analytics && r.editing == st.editing && r.creating == st.creating
  {
    st.(tab := Analytics)
  }

  /** `handleCreateAnnouncementClick`: an empty form for a new announcement. */
  function CreateClick(st: State): (r: State)
    ensures r.creating && r.editing.None? && r.tab == st.tab
  {
    st.(editing := None, creating := true)
  }

  /** `handleEditAnnouncementClick`: the form on an existing announcement. */
  function EditClick(st: State, a: Announcement): (r: State)
    ensures !r.creating && r.editing == Some(a) && r.tab == st.tab
  {
    st.(editing := Some(a), creating := false)
  }

  /** `handleCancelAnnouncement`: the form closes. */
  function Cancel(st: State): (r: State)
    ensures !FormShown(r) && r.tab == st.tab
  {
    st.(editing := None, creating := false)
  }

  /** `handleAnnouncementSubmit`: while editing, the typed title and content replace those of the
      edited announcement, whose id and creation time are kept; otherwise they are added as a new
      announcement. Either way the form closes. */
  function Submit(st: State, propertyId: string, data: AnnouncementFields): (r: (State, Dispatch))
    ensures !FormShown(r.0) && r.0.tab == st.tab
    ensures st.editing.Some? ==> r.1 == UpdateAnnouncement(propertyId,
      Announcement(st.editing.value.id, data.title, data.content, st.editing.value.createdAt))
    ensures st.editing.None? ==> r.1 == AddAnnouncement(propertyId, data)
  {
    var dispatch := match st.editing
      case Some(a) => UpdateAnnouncement(propertyId, Announcement(a.id, data.title, data.content, a.createdAt))
      case None => AddAnnouncement(propertyId, data);
    (Cancel(st), dispatch)
  }

  /** `handleDeleteAnnouncementClick`: the announcement is deleted from this property. */
  function DeleteClick(st: State, propertyId: string, announcementId: string): (r: (State, Dispatch))
    ensures r.0 == st && r.1 == DeleteAnnouncement(propertyId, announcementId)
  {
    (st, DeleteAnnouncement(propertyId, announcementId))
  }

  /** Every transition keeps the two form modes exclusive, starting from the first state. */
  lemma TransitionsKeepModesExclusive(st: State, a: Announcement, tab: Tab, p: Property, pid: string, data: AnnouncementFields)
    requires ModesExclusive(st)
    ensures ModesExclusive(Initial)
    ensures ModesExclusive(SelectTab(st, tab)) && ModesExclusive(SaveProperty(st, p).0)
    ensures ModesExclusive(CreateClick(st)) && ModesExclusive(EditClick(st, a))
    ensures ModesExclusive(Cancel(st)) && ModesExclusive(Submit(st, pid, data).0)
    ensures FormShown(CreateClick(st)) && FormShown(EditClick(st, a))
  {
  }

  /** Opening an announcement and submitting the form unchanged sends that announcement back
      whole, id and creation time included. */
  lemma EditUnchangedSendsSame(st: State, a: Announcement, pid: string)
    requires AnnouncementForm.Submit(AnnouncementForm.Load(EditClick(st, a).editing)).Some?
    ensures var data := AnnouncementForm.Submit(AnnouncementForm.Load(EditClick(st, a).editing)).value;
      Submit(EditClick(st, a), pid, data).1 == UpdateAnnouncement(pid, a)
  {
  }

  /** A new announcement is sent as typed, without id or date, and the form is gone afterwards. */
  lemma CreateSendsAdd(st: State, pid: string, form: AnnouncementForm.State)
    requires AnnouncementForm.Submit(form).Some?
    ensures var sent := Submit(CreateClick(st), pid, AnnouncementForm.Submit(form).value);
      && sent.1 == AddAnnouncement(pid, AnnouncementFields(form.title, form.content))
      && !FormShown(sent.0)
  {
  }
}
