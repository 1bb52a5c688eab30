/** The announcement form of the owner dashboard: title and content, filled from the
    announcement being edited or emptied for a new one; a submission is refused while either is
    blank. */
module AnnouncementForm {
  import opened Wrappers
  import opened Types
  import opened Text

  /** What the form holds. */
  datatype State = State(title: string, content: string)

  /** The effect run when the form receives its announcement: an announcement to edit fills both
      fields, none empties them. */
  function Load(initial: Option<Announcement>): (r: State)
    ensures initial.None? ==> r.title == "" && r.content == ""
    ensures initial.Some? ==> r.title == initial.value.title && r.content == initial.value.content
  {
    match initial
    case None => State("", "")
    case Some(a) => State(a.title, a.content)
  }

  /** `handleSubmit`: a blank title or content is refused with an alert and nothing is sent;
      otherwise both go exactly as typed, with neither id nor date. */
  function Submit(st: State): (r: Option<AnnouncementFields>)
    ensures r.None? <==> IsBlank(st.title) || IsBlank(st.content)
    ensures r.Some? ==> r.value.title == st.title && r.value.content == st.content
  {
    if Trim(st.title) == "" || Trim(st.content) == "" then None
    else Some(AnnouncementFields(st.title, st.content))
  }

  /** Opening an announcement and submitting it unchanged sends its own title and content, unless
      one of them is blank; a form opened for a new announcement refuses to submit until both are
      typed. */
  lemma LoadThenSubmit(a: Announcement)
    ensures !IsBlank(a.title) && !IsBlank(a.content) ==>
      Submit(Load(Some(a))) == Some(AnnouncementFields(a.title, a.content))
    ensures IsBlank(a.title) || IsBlank(a.content) ==> Submit(Load(Some(a))).None?
    ensures Submit(Load(None)).None?
  {
    assert IsBlank(Load(None).title);
  }
}
