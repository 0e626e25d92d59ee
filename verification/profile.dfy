/**
 * The profile page: the session guard, choosing a new picture, and saving
 * the edited profile.
 */
module Profile {
  import opened Common
  import opened Storage
  import opened FormData
  import FileName

  /** The guard run on mount: without a token the page warns and sends the visitor to the login page. */
  function TokenGuard(token: Option<string>): (r: Option<(Notice, string)>)
    ensures r.None? <==> Truthy(token)
    ensures r.Some? ==> r.value == (Warning("Phiên đăng nhập đã hết. Vui lòng đăng nhập lại."), "/auth/login")
  {
    if Truthy(token) then None
    else Some((Warning("Phiên đăng nhập đã hết. Vui lòng đăng nhập lại."), "/auth/login"))
  }

  /** An entry of the upload widget's file list; `original` is its `originFileObj` name, if any. */
  datatype Upload = Upload(original: Option<string>)

  /**
   * `handleUploadChange`: the first entry's file, renamed by the file-name
   * normaliser, becomes the selected file; without one the selection stays.
   */
  function ChooseFile(fileList: seq<Upload>, selected: Option<string>): (r: Option<string>)
    ensures (fileList == [] || fileList[0].original.None?) ==> r == selected
    ensures fileList != [] && fileList[0].original.Some? ==>
      r == Some(FileName.NormalizeFileName(fileList[0].original.value))
  {
    if fileList == [] || fileList[0].original.None? then selected
    else Some(FileName.NormalizeFileName(fileList[0].original.value))
  }

  /** One form field: its key and its value (`None` when the field was left undefined). */
  datatype Field = Field(key: string, value: Option<string>)

  /** A password field left empty is not sent. */
  predicate Skipped(f: Field) {
    f.key == "password" && !Truthy(f.value)
  }

  /** The part one field contributes: none for an empty password, otherwise its text. */
  function PartsOf(f: Field): seq<Part> {
    if Skipped(f) then [] else [Text(f.key, AsText(f.value))]
  }

  /** The text parts of the update body: every field in order, except an empty password. */
  function FieldParts(values: seq<Field>): (parts: seq<Part>)
    ensures |parts| <= |values|
    ensures forall p :: p in parts ==> p.Text? && exists f :: f in values && !Skipped(f) && p == Text(f.key, AsText(f.value))
    ensures forall f :: f in values && !Skipped(f) ==> Text(f.key, AsText(f.value)) in parts
  {
    if values == [] then []
    else
      var rest := FieldParts(values[1..]);
      assert forall f :: f in values[1..] ==> f in values;
      PartsOf(values[0]) + rest
  }

  /** The parts of a concatenation of fields are the parts of each, in order. */
  lemma {:induction false} FieldPartsAppend(a: seq<Field>, b: seq<Field>)
    ensures FieldParts(a + b) == FieldParts(a) + FieldParts(b)
  {
    if a == [] {
      assert a + b == b;
    } else {
      assert (a + b)[0] == a[0] && (a + b)[1..] == a[1..] + b;
      FieldPartsAppend(a[1..], b);
    }
  }

  /** One field gives one text part with its key and value, or none for an empty password. */
  lemma FieldPartsOne(f: Field)
    ensures Skipped(f) ==> FieldParts([f]) == []
    ensures !Skipped(f) ==> FieldParts([f]) == [Text(f.key, AsText(f.value))]
  {
    assert [f][1..] == [];
  }

  /** Two fields that are both sent keep their order in the body. */
  lemma FieldPartsKeepOrder(a: Field, b: Field)
    requires !Skipped(a) && !Skipped(b)
    ensures FieldParts([a, b]) == [Text(a.key, AsText(a.value)), Text(b.key, AsText(b.value))]
  {
    FieldPartsAppend([a], [b]);
    assert [a] + [b] == [a, b];
    FieldPartsOne(a);
    FieldPartsOne(b);
  }

  /** The whole update body: the field parts, then the selected image when there is one. */
  function UpdateBody(values: seq<Field>, file: Option<string>): (parts: seq<Part>)
    ensures file.None? ==> parts == FieldParts(values)
    ensures file.Some? ==> parts == FieldParts(values) + [File("image", file.value)]
  {
    FieldParts(values) + (if file.Some? then [File("image", file.value)] else [])
  }

  /** The page's own state. */
  datatype Page = Page(userData: Option<User>, file: Option<string>, preview: bool, editing: bool)

  /** What saving does: the request, the page and storage afterwards, the `userUpdated` dispatch, the notice. */
  datatype Save = Save(
    target: Option<int>,
    body: seq<Part>,
    page: Page,
    store: Store,
    dispatched: bool,
    notice: Notice)

  /**
   * `onFinish(values)` for the stored user `me` (`{}` when nothing is
   * stored), where `reply` carries the updated user `res.data.data`.
   */
  function SaveProfile(me: Option<User>, values: seq<Field>, p: Page, s: Store, reply: Response<User>): (r: Save)
    ensures r.target == (if me.Some? then me.value.id else None)
    ensures r.body == UpdateBody(values, p.file)
    ensures reply.Returned? ==>
      var updated := reply.body.(role := if me.Some? then me.value.role else None);
      r.store == s.(user := Present(updated)) && r.page == Page(Some(updated), None, false, false)
    ensures reply.Returned? ==> r.dispatched && r.notice == Success("Cập nhật thông tin thành công!")
    ensures reply.Thrown? ==> r.page == p && r.store == s && !r.dispatched
    ensures reply.Thrown? ==> r.notice == Failure(OrElse(reply.message, "Cập nhật thất bại"))
  {
    var target := if me.Some? then me.value.id else None;
    var body := UpdateBody(values, p.file);
    match reply
      case Thrown(m) => Save(target, body, p, s, false, Failure(OrElse(m, "Cập nhật thất bại")))
      case Returned(data) =>
        var updated := data.(role := if me.Some? then me.value.role else None);
        Save(target, body, Page(Some(updated), None, false, false), s.(user := Present(updated)), true,
             Success("Cập nhật thông tin thành công!"))
  }

  /** Saving keeps the role the stored user had, whatever role the server sends back. */
  lemma SaveKeepsRole(me: User, values: seq<Field>, p: Page, s: Store, data: User)
    ensures SaveProfile(Some(me), values, p, s, Returned(data)).store.user.value.role == me.role
  {
  }

  /** The body never carries an empty password, and a typed one is sent. */
  lemma PasswordOnlyWhenTyped(values: seq<Field>, pw: string)
    ensures Text("password", "") !in FieldParts(values)
    ensures pw != "" ==> Text("password", pw) in FieldParts(values + [Field("password", Some(pw))])
  {
    assert Field("password", Some(pw)) in values + [Field("password", Some(pw))];
  }
}
