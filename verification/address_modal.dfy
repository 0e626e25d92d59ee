/**
 * The shipping-address modal: the province → district → ward cascade, the
 * option lists it loads, and the confirmation that assembles the address.
 *
 * Each select change and each response is one step. A step's effects run
 * at once with the response passed in, so a response that arrives after a
 * later change is not modelled.
 */
module AddressModal {
  import opened Common

  /** An administrative unit offered by a select: its code and its name. */
  datatype Place = Place(code: string, name: string)

  /** The modal's state. */
  datatype Form = Form(
    visible: bool,
    provinces: seq<Place>,
    districts: seq<Place>,
    wards: seq<Place>,
    province: Option<Place>,
    district: Option<Place>,
    ward: Option<Place>,
    street: string)

  /** The state after mounting hidden: every list empty, nothing selected. */
  const Closed := Form(false, [], [], [], None, None, None, "")

  /** A request for an option list. */
  datatype Request = Provinces | Districts(provinceCode: string) | Wards(districtCode: string)

  /** The notification shown when an option list cannot be loaded. */
  const LoadFailed := "Không thể tải dữ liệu địa chỉ"

  /**
   * `fetchData`: the options a response yields, and the notification. The
   * body is `None` when it is not an array.
   */
  function Loaded(reply: Response<Option<seq<Place>>>): (r: (seq<Place>, Option<Notice>))
    ensures reply.Returned? && reply.body.Some? ==> r.0 == reply.body.value
    ensures !(reply.Returned? && reply.body.Some?) ==> r.0 == []
    ensures r.1.Some? <==> reply.Thrown?
    ensures r.1.Some? ==> r.1.value == Failure(LoadFailed)
  {
    match reply
      case Thrown(_) => ([], Some(Failure(LoadFailed)))
      case Returned(body) => (if body.Some? then body.value else [], None)
  }

  /** The select's `onChange`: the first option whose code is the chosen one; clearing chooses nothing. */
  function Choose(options: seq<Place>, code: Option<string>): (p: Option<Place>)
    ensures p.Some? ==> p.value in options && code == Some(p.value.code)
    ensures p.None? ==> forall i :: 0 <= i < |options| ==> code != Some(options[i].code)
    ensures p.Some? ==> forall i :: 0 <= i < |options| && options[i] != p.value ==>
      code != Some(options[i].code) || exists j :: 0 <= j < i && options[j] == p.value
  {
    if options == [] then None
    else if code == Some(options[0].code) then Some(options[0])
    else
      var rest := Choose(options[1..], code);
      assert rest.Some? ==> forall i :: 1 <= i < |options| && options[i] != rest.value ==>
        code != Some(options[i].code) || exists j :: 1 <= j < i && options[j] == rest.value by {
        if rest.Some? {
          forall i | 1 <= i < |options| && options[i] != rest.value && code == Some(options[i].code)
            ensures exists j :: 1 <= j < i && options[j] == rest.value
          {
            assert options[i] == options[1..][i - 1];
            var j :| 0 <= j < i - 1 && options[1..][j] == rest.value;
            assert options[j + 1] == rest.value;
          }
        }
      }
      rest
  }

  /** What the modal does in response. */
  datatype Event =
    | VisibilityChanged(show: bool, provinceReply: Response<Option<seq<Place>>>)
    | StreetTyped(text: string)
    | ProvinceChosen(provinceCode: Option<string>, districtReply: Response<Option<seq<Place>>>)
    | DistrictChosen(districtCode: Option<string>, wardReply: Response<Option<seq<Place>>>)
    | WardChosen(wardCode: Option<string>)

  /** One step: the state after the effects have run, the requests issued and the notification. */
  datatype Outcome = Outcome(form: Form, requests: seq<Request>, notice: Option<Notice>)

  /**
   * A province change. Choosing the selection already made leaves the state
   * as it is, so the effect does not run. Otherwise the districts are loaded
   * for the new province (or emptied when the select was cleared) and the
   * district and ward are cleared; clearing a selected district re-runs the
   * district effect, which empties the wards.
   */
  function SelectProvince(s: Form, code: Option<string>, reply: Response<Option<seq<Place>>>): (o: Outcome)
    ensures Choose(s.provinces, code) == s.province ==> o == Outcome(s, [], None)
    ensures Choose(s.provinces, code) != s.province ==>
      o.form.province == Choose(s.provinces, code) && o.form.district == None && o.form.ward == None &&
      o.form.provinces == s.provinces && o.form.street == s.street && o.form.visible == s.visible
    ensures Choose(s.provinces, code) != s.province && o.form.province.Some? ==>
      o.requests == [Districts(o.form.province.value.code)] && (o.form.districts, o.notice) == Loaded(reply)
    ensures Choose(s.provinces, code) != s.province && o.form.province.None? ==>
      o.requests == [] && o.form.districts == [] && o.notice == None
    ensures Choose(s.provinces, code) != s.province ==>
      o.form.wards == (if s.district.Some? then [] else s.wards)
  {
    var p := Choose(s.provinces, code);
    if p == s.province then Outcome(s, [], None)
    else
      var wards := if s.district.Some? then [] else s.wards;
      var cleared := s.(province := p, district := None, ward := None, wards := wards);
      if p.Some? then
        var (districts, notice) := Loaded(reply);
        Outcome(cleared.(districts := districts), [Districts(p.value.code)], notice)
      else Outcome(cleared.(districts := []), [], None)
  }

  /** A district change: wards loaded for the new district (or emptied), and the ward cleared. */
  function SelectDistrict(s: Form, code: Option<string>, reply: Response<Option<seq<Place>>>): (o: Outcome)
    ensures Choose(s.districts, code) == s.district ==> o == Outcome(s, [], None)
    ensures Choose(s.districts, code) != s.district ==>
      o.form == s.(district := Choose(s.districts, code), ward := None, wards := o.form.wards)
    ensures Choose(s.districts, code) != s.district && o.form.district.Some? ==>
      o.requests == [Wards(o.form.district.value.code)] && (o.form.wards, o.notice) == Loaded(reply)
    ensures Choose(s.districts, code) != s.district && o.form.district.None? ==>
      o.requests == [] && o.form.wards == [] && o.notice == None
  {
    var d := Choose(s.districts, code);
    if d == s.district then Outcome(s, [], None)
    else if d.Some? then
      var (wards, notice) := Loaded(reply);
      Outcome(s.(district := d, ward := None, wards := wards), [Wards(d.value.code)], notice)
    else Outcome(s.(district := None, ward := None, wards := []), [], None)
  }

  /** One event and the effects it causes. */
  function Step(s: Form, e: Event): (o: Outcome)
    ensures e.VisibilityChanged? ==>
      o.form.districts == s.districts && o.form.wards == s.wards &&
      o.form.province == s.province && o.form.district == s.district && o.form.ward == s.ward
    ensures e.VisibilityChanged? ==> (o.requests == [Provinces] <==> e.show && !s.visible)
    ensures e.VisibilityChanged? && !(e.show && !s.visible) ==> o.requests == [] && o.form.provinces == s.provinces
    ensures e.VisibilityChanged? && e.show && !s.visible ==> (o.form.provinces, o.notice) == Loaded(e.provinceReply)
    ensures e.StreetTyped? ==> o == Outcome(s.(street := e.text), [], None)
    ensures e.ProvinceChosen? ==> o == SelectProvince(s, e.provinceCode, e.districtReply)
    ensures e.DistrictChosen? ==> o == SelectDistrict(s, e.districtCode, e.wardReply)
    ensures e.WardChosen? ==> o == Outcome(s.(ward := Choose(s.wards, e.wardCode)), [], None)
  {
    match e
      case VisibilityChanged(show, reply) =>
        if show == s.visible then Outcome(s, [], None)
        else if show then
          var (provinces, notice) := Loaded(reply);
          Outcome(s.(visible := true, provinces := provinces), [Provinces], notice)
        else Outcome(s.(visible := false), [], None)
      case StreetTyped(text) => Outcome(s.(street := text), [], None)
      case ProvinceChosen(code, reply) => SelectProvince(s, code, reply)
      case DistrictChosen(code, reply) => SelectDistrict(s, code, reply)
      case WardChosen(code) => Outcome(s.(ward := Choose(s.wards, code)), [], None)
  }

  /**
   * The cascade is consistent: a level below an empty selection has no
   * options and no selection, and a selected district or ward is one of the
   * options offered for it.
   */
  predicate Consistent(s: Form) {
    && (s.province.None? ==> s.districts == [] && s.district.None?)
    && (s.district.None? ==> s.wards == [] && s.ward.None?)
    && (s.district.Some? ==> s.district.value in s.districts)
    && (s.ward.Some? ==> s.ward.value in s.wards)
  }

  /** Every event keeps the cascade consistent. */
  lemma StepKeepsConsistent(s: Form, e: Event)
    requires Consistent(s)
    ensures Consistent(Step(s, e).form)
  {
  }

  /** One event as a step of a run: the next form and the requests it issues. */
  function Effects(s: Form, e: Event): (Form, seq<Request>) {
    var o := Step(s, e);
    (o.form, o.requests)
  }

  /** A run of events through the modal. */
  function Run(s: Form, es: seq<Event>): (r: (Form, seq<Request>))
    ensures es == [] ==> r == (s, [])
  {
    RunOf(Effects, s, es)
  }

  /** Running two sequences of events one after the other is running their concatenation. */
  lemma RunAppend(s: Form, a: seq<Event>, b: seq<Event>)
    ensures var first := Run(s, a);
            var second := Run(first.0, b);
            Run(s, a + b) == (second.0, first.1 + second.1)
  {
    RunOfAppend(Effects, s, a, b);
  }

  /** From the mounted modal, any run of events leaves the cascade consistent. */
  lemma {:induction false} RunKeepsConsistent(s: Form, es: seq<Event>)
    requires Consistent(s)
    ensures Consistent(Run(s, es).0)
    decreases |es|
  {
    if es != [] {
      StepKeepsConsistent(s, es[0]);
      RunKeepsConsistent(Step(s, es[0]).form, es[1..]);
    }
  }

  /** The modal mounts consistent. */
  lemma ClosedIsConsistent()
    ensures Consistent(Closed)
  {
  }

  /** Provinces are requested only by the modal becoming visible. */
  lemma ProvincesOnlyWhenShown(s: Form, e: Event)
    requires Provinces in Step(s, e).requests
    ensures e.VisibilityChanged? && e.show && !s.visible
  {
  }

  /** A callback of the confirm button. */
  datatype Callback = OnConfirm(address: string) | OnClose

  /** The address `handleConfirm` hands on: street, ward, district and province, comma-separated. */
  function FullAddress(street: string, ward: Place, district: Place, province: Place): (a: string)
    ensures a == Join([street, " " + ward.name, " " + district.name, " " + province.name], ',')
  {
    var parts := [street, " " + ward.name, " " + district.name, " " + province.name];
    assert Join(parts[3..], ',') == " " + province.name;
    assert Join(parts[2..], ',') == " " + district.name + [','] + " " + province.name by {
      assert parts[2..][1..] == parts[3..];
    }
    assert Join(parts[1..], ',') == " " + ward.name + [','] + " " + district.name + [','] + " " + province.name by {
      assert parts[1..][1..] == parts[2..];
    }
    assert Join(parts, ',') == street + [','] + Join(parts[1..], ',');
    street + ", " + ward.name + ", " + district.name + ", " + province.name
  }

  /**
   * `handleConfirm`: with an empty street or a missing selection a warning
   * and no callback; otherwise the address is confirmed and the modal closed,
   * in that order.
   */
  function Confirm(s: Form): (r: (seq<Callback>, Option<Notice>))
    ensures r.1.Some? <==> r.0 == []
    ensures r.0 == [] <==> s.street == "" || s.province.None? || s.district.None? || s.ward.None?
    ensures r.1.Some? ==> r.1.value == Warning("Vui lòng nhập đầy đủ địa chỉ")
    ensures r.0 != [] ==>
      r.0 == [OnConfirm(FullAddress(s.street, s.ward.value, s.district.value, s.province.value)), OnClose]
  {
    if s.street == "" || s.province.None? || s.district.None? || s.ward.None? then
      ([], Some(Warning("Vui lòng nhập đầy đủ địa chỉ")))
    else
      ([OnConfirm(FullAddress(s.street, s.ward.value, s.district.value, s.province.value)), OnClose], None)
  }

  /**
   * When no part contains a comma, splitting the confirmed address at its
   * commas gives the street and the three names back, each of the names
   * after the one space the format puts in front of it.
   */
  lemma AddressSplitsBack(street: string, ward: Place, district: Place, province: Place)
    requires ',' !in street && ',' !in ward.name && ',' !in district.name && ',' !in province.name
    ensures Split(FullAddress(street, ward, district, province), ',') ==
      [street, " " + ward.name, " " + district.name, " " + province.name]
  {
    var parts := [street, " " + ward.name, " " + district.name, " " + province.name];
    assert forall i :: 0 <= i < |parts| ==> ',' !in parts[i];
    SplitJoin(parts, ',');
  }
}
