/**
 * The submit checks of the admin forms: duplicate codes and names for
 * categories, roles and discounts, the discount percentage and date rules,
 * and the user form's required fields and e-mail rule.
 *
 * A form's initial values carry the id of the record being edited; when a
 * record is added there is none, and no existing record is excluded.
 */
module AdminForms {
  import opened Common

  /** A category or role as the list holds it. */
  datatype Coded = Coded(id: int, code: string, name: string)

  /** A discount as the list holds it. */
  datatype Named = Named(id: int, name: string)

  /** The values of a category or role form. */
  datatype CodedValues = CodedValues(code: string, name: string)

  /** What `onSubmit` receives for a category or role: the values plus the slug. */
  datatype CodedSubmission = CodedSubmission(code: string, name: string, slug: string)

  /** The verdict of a submit handler: an error message, or the object handed to `onSubmit`. */
  datatype Verdict<+T> = Rejected(message: string) | Submitted(values: T)

  /** The two forms that check codes: they differ only in their messages. */
  datatype CodedKind = CategoryKind | RoleKind

  /** The message for a code that is already taken. */
  function CodeTakenMessage(k: CodedKind): string {
    match k
      case CategoryKind => "Mã danh mục đã tồn tại!"
      case RoleKind => "Mã vai trò đã tồn tại!"
  }

  /** The message for a name that is already taken. */
  function NameTakenMessage(k: CodedKind): string {
    match k
      case CategoryKind => "Tên danh mục đã tồn tại!"
      case RoleKind => "Tên vai trò đã tồn tại!"
  }

  /** `c.id !== initialValues?.id`: the record is not the one being edited. */
  predicate Other(id: int, editing: Option<int>) {
    editing != Some(id)
  }

  /** `records.some(c => c.code === code && c.id !== editing)`, computed by a scan. */
  function CodeClash(records: seq<Coded>, code: string, editing: Option<int>): (clash: bool)
    ensures clash <==> exists i :: 0 <= i < |records| && records[i].code == code && Other(records[i].id, editing)
  {
    if records == [] then false
    else
      var rest := CodeClash(records[1..], code, editing);
      assert forall i :: 1 <= i < |records| ==> records[i] == records[1..][i - 1];
      (records[0].code == code && Other(records[0].id, editing)) || rest
  }

  /** The names of the records, in order. */
  function NamesOf(records: seq<Coded>): (names: seq<Named>)
    ensures |names| == |records|
    ensures forall i :: 0 <= i < |records| ==> names[i] == Named(records[i].id, records[i].name)
  {
    seq(|records|, i requires 0 <= i < |records| => Named(records[i].id, records[i].name))
  }

  /** `records.some(c => c.name.toLowerCase() === name.toLowerCase() && c.id !== editing)`, computed by a scan. */
  function NameClash(records: seq<Named>, name: string, editing: Option<int>): (clash: bool)
    ensures clash <==> exists i :: 0 <= i < |records| && Lower(records[i].name) == Lower(name) && Other(records[i].id, editing)
  {
    if records == [] then false
    else
      var rest := NameClash(records[1..], name, editing);
      assert forall i :: 1 <= i < |records| ==> records[i] == records[1..][i - 1];
      (Lower(records[0].name) == Lower(name) && Other(records[0].id, editing)) || rest
  }

  /**
   * `handleFinish` of the category and role forms: the code check first,
   * then the name check, then the values with the slug `slugify` derives
   * from the name.
   */
  function CheckCoded(k: CodedKind, records: seq<Coded>, editing: Option<int>, values: CodedValues,
                      slugify: string -> string): (v: Verdict<CodedSubmission>)
    ensures v.Rejected? <==> CodeClash(records, values.code, editing) || NameClash(NamesOf(records), values.name, editing)
    ensures CodeClash(records, values.code, editing) ==> v == Rejected(CodeTakenMessage(k))
    ensures !CodeClash(records, values.code, editing) && NameClash(NamesOf(records), values.name, editing) ==>
      v == Rejected(NameTakenMessage(k))
    ensures v.Submitted? ==> v.values == CodedSubmission(values.code, values.name, slugify(values.name))
  {
    if CodeClash(records, values.code, editing) then Rejected(CodeTakenMessage(k))
    else if NameClash(NamesOf(records), values.name, editing) then Rejected(NameTakenMessage(k))
    else Submitted(CodedSubmission(values.code, values.name, slugify(values.name)))
  }

  /** The record being edited never clashes with itself: adding it to the list changes no verdict. */
  lemma EditedRecordExcluded(k: CodedKind, records: seq<Coded>, self: Coded, values: CodedValues, slugify: string -> string)
    ensures CheckCoded(k, records + [self], Some(self.id), values, slugify) == CheckCoded(k, records, Some(self.id), values, slugify)
  {
    var all := records + [self];
    assert forall i :: 0 <= i < |records| ==> all[i] == records[i];
    assert CodeClash(all, values.code, Some(self.id)) == CodeClash(records, values.code, Some(self.id)) by {
      if CodeClash(all, values.code, Some(self.id)) {
        var i :| 0 <= i < |all| && all[i].code == values.code && Other(all[i].id, Some(self.id));
        assert i < |records|;
      }
    }
    var names := NamesOf(all);
    assert NameClash(names, values.name, Some(self.id)) == NameClash(NamesOf(records), values.name, Some(self.id)) by {
      if NameClash(names, values.name, Some(self.id)) {
        var i :| 0 <= i < |names| && Lower(names[i].name) == Lower(values.name) && Other(names[i].id, Some(self.id));
        assert i < |records|;
        assert NamesOf(records)[i] == names[i];
      }
      if NameClash(NamesOf(records), values.name, Some(self.id)) {
        var i :| 0 <= i < |records| && Lower(NamesOf(records)[i].name) == Lower(values.name) && Other(records[i].id, Some(self.id));
        assert names[i] == NamesOf(records)[i];
      }
    }
  }

  /** Names are compared without regard to case: names with the same lower case get the same verdict. */
  lemma NameCheckIgnoresCase(k: CodedKind, records: seq<Coded>, editing: Option<int>, code: string, a: string, b: string,
                             slugify: string -> string)
    requires Lower(a) == Lower(b)
    ensures CheckCoded(k, records, editing, CodedValues(code, a), slugify).Rejected? ==
            CheckCoded(k, records, editing, CodedValues(code, b), slugify).Rejected?
  {
  }

  /** Codes are compared exactly: a code differing only in case from every other record's code passes the code check. */
  lemma CodeCheckIsExact()
    ensures !CodeClash([Coded(1, "AO", "Áo")], "ao", None)
    ensures CheckCoded(CategoryKind, [Coded(1, "AO", "Áo")], None, CodedValues("ao", "áo"), s => s) ==
            Rejected(NameTakenMessage(CategoryKind))
  {
    assert Lower("Áo") == Lower("áo") by {
      assert LowerChar('Á') == 'á';
    }
  }

  /** The values of the discount form; the percentage in hundredths of a percent. */
  datatype DiscountValues = DiscountValues(name: string, description: Option<string>, percentage: Option<int>,
                                           startDate: Option<string>, endDate: Option<string>)

  /** `handleFinish` of the discount form: the name check, then the values unchanged. */
  function CheckDiscount(records: seq<Named>, editing: Option<int>, values: DiscountValues): (v: Verdict<DiscountValues>)
    ensures v.Rejected? <==> exists i :: 0 <= i < |records| && Lower(records[i].name) == Lower(values.name) && Other(records[i].id, editing)
    ensures v.Rejected? ==> v.message == "Tên chương trình giảm giá đã tồn tại!"
    ensures v.Submitted? ==> v.values == values
  {
    if NameClash(records, values.name, editing) then Rejected("Tên chương trình giảm giá đã tồn tại!")
    else Submitted(values)
  }

  /**
   * The value of the percentage field: missing, the `NaN` that `Number`
   * gives for a text that is not a number, or a number in hundredths.
   */
  datatype Percentage = Missing | NaN | Hundredths(value: int)

  /**
   * The errors of the percentage field. Both rules demand a number: a
   * missing value fails only the required rule, `NaN` fails both, and a
   * number outside 0.01 to 100 fails the range rule.
   */
  function PercentageErrors(p: Percentage): (errors: seq<string>)
    ensures errors == [] <==> p.Hundredths? && 1 <= p.value <= 10000
    ensures p.Missing? ==> errors == ["Vui lòng nhập phần trăm giảm giá!"]
    ensures p.NaN? ==> errors == ["Vui lòng nhập phần trăm giảm giá!", "Giá trị phải từ 0.01 đến 100"]
    ensures p.Hundredths? && !(1 <= p.value <= 10000) ==> errors == ["Giá trị phải từ 0.01 đến 100"]
  {
    match p
      case Missing => ["Vui lòng nhập phần trăm giảm giá!"]
      case NaN => ["Vui lòng nhập phần trăm giảm giá!", "Giá trị phải từ 0.01 đến 100"]
      case Hundredths(h) => if 1 <= h <= 10000 then [] else ["Giá trị phải từ 0.01 đến 100"]
  }

  /** The errors of the two required date fields. */
  function DateErrors(start: Option<string>, end: Option<string>): (errors: seq<string>)
    ensures errors == [] <==> Truthy(start) && Truthy(end)
    ensures |errors| <= 2
    ensures !Truthy(start) ==> errors[0] == "Vui lòng chọn ngày bắt đầu!"
    ensures !Truthy(end) ==> errors[|errors| - 1] == "Vui lòng chọn ngày kết thúc!"
  {
    (if Truthy(start) then [] else ["Vui lòng chọn ngày bắt đầu!"]) +
    (if Truthy(end) then [] else ["Vui lòng chọn ngày kết thúc!"])
  }

  /**
   * The percentage the form starts with when editing: a truthy stored value
   * converted by `number` (JavaScript's `Number`, in hundredths, `None` for
   * `NaN`), nothing otherwise.
   */
  function InitialPercentage(stored: Option<string>, number: string -> Option<int>): (p: Percentage)
    ensures p.Missing? <==> !Truthy(stored)
    ensures p.NaN? <==> Truthy(stored) && number(stored.value).None?
    ensures p.Hundredths? ==> number(stored.value) == Some(p.value)
  {
    if !Truthy(stored) then Missing
    else if number(stored.value).None? then NaN
    else Hundredths(number(stored.value).value)
  }

  /**
   * Editing a discount opens the form with no percentage error exactly when
   * a value was stored and it converts into 0.01..100. With nothing stored
   * the required rule fires; a stored text that is not a number fails both
   * rules.
   */
  lemma EditedPercentageErrors(stored: Option<string>, number: string -> Option<int>)
    ensures PercentageErrors(InitialPercentage(stored, number)) == [] <==>
            Truthy(stored) && number(stored.value).Some? && 1 <= number(stored.value).value <= 10000
    ensures !Truthy(stored) ==> PercentageErrors(InitialPercentage(stored, number)) == ["Vui lòng nhập phần trăm giảm giá!"]
    ensures Truthy(stored) && number(stored.value).None? ==>
            |PercentageErrors(InitialPercentage(stored, number))| == 2
  {
  }

  /** A piece of an e-mail address: at least one character, none of them whitespace or '@'. */
  predicate Atom(s: string) {
    |s| > 0 && forall i :: 0 <= i < |s| ==> !IsSpace(s[i]) && s[i] != '@'
  }

  /** `/^[^\s@]+@[^\s@]+\.[^\s@]+$/`: three atoms, joined by an '@' and a '.'. */
  ghost predicate EmailShape(v: string) {
    exists a, b, c :: Atom(a) && Atom(b) && Atom(c) && v == a + "@" + b + "." + c
  }

  /** The domain has a '.' with text on both sides of it. */
  predicate InnerDot(d: string) {
    exists j :: 1 <= j < |d| - 1 && d[j] == '.'
  }

  /** The e-mail pattern checked directly: one '@' after a non-empty local part, and a domain with an inner '.'. */
  predicate IsEmail(v: string) {
    var k := IndexOf(v, '@');
    k > 0 && Atom(v[..k]) && Atom(v[k + 1..]) && InnerDot(v[k + 1..])
  }

  /** The direct check accepts exactly the strings the pattern matches. */
  lemma IsEmailMatchesPattern(v: string)
    ensures IsEmail(v) <==> EmailShape(v)
  {
    if IsEmail(v) {
      EmailHasShape(v);
    }
    if EmailShape(v) {
      var a, b, c :| Atom(a) && Atom(b) && Atom(c) && v == a + "@" + b + "." + c;
      ShapeIsEmail(a, b, c);
    }
  }

  /** An address the direct check accepts splits into the pattern's three atoms. */
  lemma EmailHasShape(v: string)
    requires IsEmail(v)
    ensures EmailShape(v)
  {
    var k := IndexOf(v, '@');
    var d := v[k + 1..];
    var j :| 1 <= j < |d| - 1 && d[j] == '.';
    AtomSlice(d, 0, j);
    AtomSlice(d, j + 1, |d|);
    SplitAround(v, k, j);
    ShapeWitness(v[..k], d[..j], d[j + 1..], v);
  }

  /** A non-empty slice of an atom is an atom. */
  lemma AtomSlice(s: string, lo: int, hi: int)
    requires Atom(s) && 0 <= lo < hi <= |s|
    ensures Atom(s[lo..hi])
  {
    assert forall i :: 0 <= i < hi - lo ==> s[lo..hi][i] == s[lo + i];
  }

  /** An address cut at its '@' and at a '.' of its domain. */
  lemma SplitAround(v: string, k: int, j: int)
    requires 0 <= k < |v| && v[k] == '@' && 0 <= j < |v| - k - 1 && v[k + 1 + j] == '.'
    ensures v == v[..k] + "@" + v[k + 1..][..j] + "." + v[k + 1..][j + 1..]
  {
    var d := v[k + 1..];
    assert d == d[..j] + "." + d[j + 1..];
    assert v == v[..k] + "@" + d;
  }

  /** Three atoms around the separators witness the pattern. */
  lemma ShapeWitness(a: string, b: string, c: string, v: string)
    requires Atom(a) && Atom(b) && Atom(c) && v == a + "@" + b + "." + c
    ensures EmailShape(v)
  {
  }

  /** Three atoms joined by an '@' and a '.' pass the direct check. */
  lemma ShapeIsEmail(a: string, b: string, c: string)
    requires Atom(a) && Atom(b) && Atom(c)
    ensures IsEmail(a + "@" + b + "." + c)
  {
    var v := a + "@" + b + "." + c;
    var d := b + "." + c;
    assert v == a + ['@'] + d;
    assert '@' !in a by {
      assert forall i :: 0 <= i < |a| ==> a[i] != '@';
    }
    IndexOfAfterFree(a, '@', d);
    CutAtSeparator(a, '@', d);
    DottedDomain(b, c);
  }

  /** Cutting `a + [sep] + b` around the separator gives back both sides. */
  lemma CutAtSeparator(a: string, sep: char, b: string)
    ensures (a + [sep] + b)[..|a|] == a && (a + [sep] + b)[|a| + 1..] == b
  {
  }

  /** Two atoms around a '.' make a domain the direct check accepts. */
  lemma DottedDomain(b: string, c: string)
    requires Atom(b) && Atom(c)
    ensures Atom(b + "." + c) && InnerDot(b + "." + c)
  {
    var d := b + "." + c;
    assert d[|b|] == '.';
    assert forall i :: 0 <= i < |d| ==> d[i] == (if i < |b| then b[i] else if i == |b| then '.' else c[i - |b| - 1]);
  }

  /** The e-mail field's own validator: an empty value is left to the required rule. */
  predicate EmailValidator(value: Option<string>) {
    !Truthy(value) || IsEmail(value.value)
  }

  /** The values of the user form. */
  datatype UserValues = UserValues(
    lastname: Option<string>,
    firstname: Option<string>,
    email: Option<string>,
    password: Option<string>,
    phone: Option<string>,
    roleId: Option<int>)

  /** The errors of the user form, field by field in the order the form lists them. */
  function UserErrors(u: UserValues): (errors: seq<string>)
    ensures errors == [] <==>
      Truthy(u.lastname) && Truthy(u.firstname) && Truthy(u.email) && IsEmail(u.email.value) &&
      Truthy(u.password) && Truthy(u.phone) && u.roleId.Some?
    ensures !Truthy(u.lastname) ==> errors[0] == "Vui lòng nhập tên!"
    ensures !Truthy(u.email) ==> "Vui lòng nhập email!" in errors && "Email không hợp lệ!" !in errors
    ensures Truthy(u.email) ==> ("Email không hợp lệ!" in errors <==> !IsEmail(u.email.value))
  {
    RequiredErrors(u.lastname, u.firstname, u.email) +
    (if EmailValidator(u.email) then [] else ["Email không hợp lệ!"]) +
    OtherErrors(u)
  }

  /** The messages of the name and e-mail required rules. */
  function RequiredErrors(lastname: Option<string>, firstname: Option<string>, email: Option<string>): (errors: seq<string>)
    ensures errors == [] <==> Truthy(lastname) && Truthy(firstname) && Truthy(email)
    ensures !Truthy(lastname) ==> errors[0] == "Vui lòng nhập tên!"
    ensures !Truthy(email) ==> "Vui lòng nhập email!" in errors
    ensures "Email không hợp lệ!" !in errors
  {
    (if Truthy(lastname) then [] else ["Vui lòng nhập tên!"]) +
    (if Truthy(firstname) then [] else ["Vui lòng nhập họ!"]) +
    (if Truthy(email) then [] else ["Vui lòng nhập email!"])
  }

  /** The messages of the password, phone and role rules. */
  function OtherErrors(u: UserValues): (errors: seq<string>)
    ensures errors == [] <==> Truthy(u.password) && Truthy(u.phone) && u.roleId.Some?
    ensures "Email không hợp lệ!" !in errors
  {
    (if Truthy(u.password) then [] else ["Vui lòng nhập mật khẩu!"]) +
    (if Truthy(u.phone) then [] else ["Vui nhập số điện thoại!"]) +
    (if u.roleId.Some? then [] else ["Vui lòng chọn vai trò!"])
  }

  /** The user form's submit: the values reach `onSubmit` unchanged, and only without errors. */
  function SubmitUser(u: UserValues): (r: Option<UserValues>)
    ensures r.Some? <==> UserErrors(u) == []
    ensures r.Some? ==> r.value == u
  {
    if UserErrors(u) == [] then Some(u) else None
  }
}
