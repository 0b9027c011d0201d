/** The client-side guards of the create and edit forms: what each form
    sends to the server, and when it refuses to send anything. */
module ClientForms {
  import opened Common
  import opened Text
  import opened Schema
  import opened Server

  /** The create form's fields, all text inputs. */
  datatype CreateForm = CreateForm(message: string, theme: string, photoUrl: string, quote: string)

  /** The form as it first appears. */
  const EmptyCreateForm: CreateForm := CreateForm("", "romantic", "", "")

  /** The untouched form is refused on the client, and its preselected theme
      is one the server accepts. */
  lemma EmptyCreateFormRefused()
    ensures SubmitCreate(EmptyCreateForm).None?
    ensures ParseTheme(Some(EmptyCreateForm.theme)) == Some(Romantic)
  {
    assert AllWhitespace(EmptyCreateForm.message);
  }

  /** `handleSubmit` of the create form: the body it posts, or `None` when it
      stops at the blank-message alert. The form is sent as it stands. */
  function SubmitCreate(form: CreateForm): (body: Option<CreateBody>)
    ensures body.None? <==> IsBlank(form.message)
    ensures body.Some? ==>
      body.value == CreateBody(Some(form.message), Some(form.theme), Some(form.photoUrl), Some(form.quote))
  {
    if IsBlank(form.message) then None
    else Some(CreateBody(Some(form.message), Some(form.theme), Some(form.photoUrl), Some(form.quote)))
  }

  /** The client and the server apply the same message check, so a body the
      form sends never fails it, and one with a known theme is accepted, its
      empty optional fields stored as NULL. */
  lemma SubmittedCreatePassesMessageCheck(form: CreateForm, th: Theme)
    requires !IsBlank(form.message) && form.theme == ThemeName(th)
    ensures SubmitCreate(form).Some?
    ensures !MessageMissing(SubmitCreate(form).value.message)
    ensures ParseTheme(SubmitCreate(form).value.theme) == Some(th)
    ensures OrNull(SubmitCreate(form).value.photoUrl) == (if form.photoUrl == "" then None else Some(form.photoUrl))
    ensures OrNull(SubmitCreate(form).value.quote) == (if form.quote == "" then None else Some(form.quote))
  {
    ParseThemeName(th);
  }

  /** `fetchMessage` of the edit page: the key put into the lookup path, or
      `None` when the key field is blank. The key is sent untrimmed. */
  function LookupKey(editKey: string): (key: Option<string>)
    ensures key.None? <==> IsBlank(editKey)
    ensures key.Some? ==> key.value == editKey
  {
    if IsBlank(editKey) then None else Some(editKey)
  }

  /** The edit form's fields. */
  datatype EditForm = EditForm(message: string, photoUrl: string, quote: string)

  /** `value || ''` for a column that may be NULL. Filling the field and
      sending it back gives the stored value again. */
  function EmptyIfNull(v: Option<string>): (s: string)
    ensures v.None? ==> s == ""
    ensures StoredOptional(v) ==> OrNull(Some(s)) == v
  {
    if v.Some? then v.value else ""
  }

  /** The form filled from a loaded message. */
  function EditFormOf(data: Projection): (form: EditForm)
    ensures form.message == data.message
    ensures StoredOptional(data.photoUrl) ==> OrNull(Some(form.photoUrl)) == data.photoUrl
    ensures StoredOptional(data.quote) ==> OrNull(Some(form.quote)) == data.quote
  {
    EditForm(data.message, EmptyIfNull(data.photoUrl), EmptyIfNull(data.quote))
  }

  /** `handleUpdate`: the body it PUTs (the form plus the key typed in), or
      `None` when it stops at the empty-message alert. */
  function SubmitUpdate(form: EditForm, editKey: string): (body: Option<UpdateBody>)
    ensures body.None? <==> IsBlank(form.message)
    ensures body.Some? ==>
      body.value == UpdateBody(Some(form.message), Some(form.photoUrl), Some(form.quote), Some(editKey))
  {
    if IsBlank(form.message) then None
    else Some(UpdateBody(Some(form.message), Some(form.photoUrl), Some(form.quote), Some(editKey)))
  }

  /** Likewise for updates: a body the edit form sends never fails the
      server's message check. */
  lemma SubmittedUpdatePassesMessageCheck(form: EditForm, editKey: string)
    requires SubmitUpdate(form, editKey).Some?
    ensures !MessageMissing(SubmitUpdate(form, editKey).value.message)
    ensures Present(SubmitUpdate(form, editKey).value.editKey) <==> editKey != ""
  {
  }
}
