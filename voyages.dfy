/**
 * The fixed voyage table and the lookup behind the four statistics boxes
 * (`updaterow`): an exact match on bunker port, discharge port, navigation
 * and passage, the first matching row in table order, "NA" otherwise.
 */
module Voyages {
  import opened Wrappers
  import opened Format

  /** One row of the voyage table, columns as in app.py:42-43. */
  datatype Voyage = Voyage(
    route: int,
    passage: string,
    bunker: string,
    discharge: string,
    navigation: string,
    miles: int,
    speed: real,
    bunkerPrice: int,
    bunkerConsumption: int)

  /** The ten voyages, in table order. */
  const Values: seq<Voyage> := [
    Voyage(0, "Panama Canal", "Cristobal", "Kashima", "GC", 8531, 6.12, 425, 638),
    Voyage(3, "Panama Canal", "Cristobal", "Kashima", "RL", 9825, 7.0, 425, 580),
    Voyage(9, "Cape Horn", "Kashima", "Kashima", "RL", 17008, 11.6, 375, 1525),
    Voyage(6, "Cape Horn", "Kashima", "Kashima", "GC", 16482, 11.3, 375, 1708),
    Voyage(1, "Panama Canal", "Busan", "Qingdao", "GC", 10082, 5.83, 390, 720),
    Voyage(2, "Panama Canal", "Cristobal", "Qingdao", "GC", 10081, 5.85, 425, 717),
    Voyage(4, "Panama Canal", "Busan", "Qingdao", "RL", 11121, 6.43, 390, 648),
    Voyage(5, "Panama Canal", "Cristobal", "Qingdao", "RL", 11120, 6.45, 390, 645),
    Voyage(8, "Cape Horn", "Busan", "Qingdao", "GC", 17079, 9.49, 390, 1875),
    Voyage(7, "Cape Horn", "Busan", "Qingdao", "RL", 18088, 10.05, 390, 1800)
  ]

  /** The selector values; a dropdown with nothing chosen is None. */
  datatype Selection = Selection(
    bunker: Option<string>,
    discharge: Option<string>,
    navigation: Option<string>,
    passage: Option<string>)

  /** The row filter: every one of the four columns equals its selector exactly (None equals nothing). */
  predicate Matches(v: Voyage, sel: Selection) {
    && sel.bunker == Some(v.bunker)
    && sel.discharge == Some(v.discharge)
    && sel.navigation == Some(v.navigation)
    && sel.passage == Some(v.passage)
  }

  /** The rows the boolean mask keeps, in table order. */
  function Filter(rows: seq<Voyage>, sel: Selection): (r: seq<Voyage>)
    ensures |r| <= |rows|
    ensures forall k :: 0 <= k < |r| ==> Matches(r[k], sel)
    ensures forall v :: v in r <==> v in rows && Matches(v, sel)
  {
    if rows == [] then []
    else (if Matches(rows[0], sel) then [rows[0]] else []) + Filter(rows[1..], sel)
  }

  /** An ordered scan for the first matching row: its index, or None when no row matches. */
  function FirstMatch(rows: seq<Voyage>, sel: Selection): (r: Option<nat>)
    ensures r.Some? ==> r.value < |rows| && Matches(rows[r.value], sel)
    ensures r.Some? ==> forall j :: 0 <= j < r.value ==> !Matches(rows[j], sel)
    ensures r.None? <==> forall j :: 0 <= j < |rows| ==> !Matches(rows[j], sel)
  {
    if rows == [] then None
    else if Matches(rows[0], sel) then Some(0)
    else match FirstMatch(rows[1..], sel)
      case None => None
      case Some(i) => Some(i + 1)
  }

  /** `iloc[0]` of the filtered table is the row the ordered scan finds first. */
  lemma {:induction false} FilterHeadIsFirstMatch(rows: seq<Voyage>, sel: Selection)
    ensures FirstMatch(rows, sel).None? <==> Filter(rows, sel) == []
    ensures FirstMatch(rows, sel).Some? ==> Filter(rows, sel)[0] == rows[FirstMatch(rows, sel).value]
  {
    if rows != [] {
      FilterHeadIsFirstMatch(rows[1..], sel);
      if !Matches(rows[0], sel) {
        assert Filter(rows, sel) == Filter(rows[1..], sel);
      }
    }
  }

  /** The four display strings: speed, miles, consumption, price. */
  datatype Readout = Readout(speed: string, miles: string, consumption: string, price: string)

  const NotAvailable := Readout("NA", "NA", "NA", "NA")

  /**
   * How a matched row is shown, box by box: the speed text (supplied by the
   * caller), miles and consumption with thousands separators, then the price.
   */
  function Display(v: Voyage, speedText: real -> string): (r: Readout)
    ensures r.speed == speedText(v.speed)
    ensures StripCommas(r.miles) == IntText(v.miles)
    ensures StripCommas(r.consumption) == IntText(v.bunkerConsumption)
    ensures r.price == "$" + IntText(v.bunkerPrice) + "/MT"
    ensures r.miles != "NA" && r.consumption != "NA"
    ensures v.miles >= 0 ==> CommaGroups(r.miles)
    ensures v.miles < 0 ==> r.miles[0] == '-' && CommaGroups(r.miles[1..])
    ensures v.bunkerConsumption >= 0 ==> CommaGroups(r.consumption)
    ensures v.bunkerConsumption < 0 ==> r.consumption[0] == '-' && CommaGroups(r.consumption[1..])
  {
    ThousandsDigits(v.miles);
    ThousandsDigits(v.bunkerConsumption);
    ThousandsGroups(v.miles);
    ThousandsGroups(v.bunkerConsumption);
    Readout(speedText(v.speed), Thousands(v.miles), Thousands(v.bunkerConsumption), PriceText(v.bunkerPrice))
  }

  /**
   * `updaterow(gc, pc, dest, bunker)`: the first matching row's statistics,
   * or "NA" four times when no row matches.
   */
  function UpdateRow(
    values: seq<Voyage>,
    gc: Option<string>, pc: Option<string>, dest: Option<string>, bunker: Option<string>,
    speedText: real -> string): (r: Readout)
    ensures match FirstMatch(values, Selection(bunker, dest, gc, pc))
      case Some(i) => r == Display(values[i], speedText)
      case None => r == NotAvailable
    ensures r == NotAvailable <==>
      forall j :: 0 <= j < |values| ==> !Matches(values[j], Selection(bunker, dest, gc, pc))
  {
    var sel := Selection(bunker, dest, gc, pc);
    FilterHeadIsFirstMatch(values, sel);
    var matched := Filter(values, sel);
    if |matched| != 0 then Display(matched[0], speedText) else NotAvailable
  }

  // ---------------------------------------------------------------------
  // The fixed table

  function Key(v: Voyage): (k: (string, string, string, string)) {
    (v.bunker, v.discharge, v.navigation, v.passage)
  }

  predicate RouteIdsUnique(rows: seq<Voyage>) {
    forall i, j :: 0 <= i < j < |rows| ==> rows[i].route != rows[j].route
  }

  predicate KeysUnique(rows: seq<Voyage>) {
    forall i, j :: 0 <= i < j < |rows| ==> Key(rows[i]) != Key(rows[j])
  }

  /** When no two rows share the four-field key, at most one row ever matches. */
  lemma {:induction false} AtMostOneMatch(rows: seq<Voyage>, sel: Selection)
    requires KeysUnique(rows)
    ensures |Filter(rows, sel)| <= 1
  {
    if rows != [] {
      var rest := rows[1..];
      assert KeysUnique(rest) by {
        forall i, j | 0 <= i < j < |rest| ensures Key(rest[i]) != Key(rest[j]) {
          assert rest[i] == rows[i + 1] && rest[j] == rows[j + 1];
        }
      }
      AtMostOneMatch(rest, sel);
      if Matches(rows[0], sel) {
        forall j | 0 <= j < |rest| ensures !Matches(rest[j], sel) {
          assert Key(rows[0]) != Key(rows[j + 1]);
        }
        FilterHeadIsFirstMatch(rest, sel);
      }
    }
  }

  lemma ValuesRouteIdsUnique()
    ensures RouteIdsUnique(Values)
  {
  }

  lemma ValuesKeysDistinct()
    ensures KeysUnique(Values)
  {
  }

  /** In the fixed table any selection matches at most one voyage. */
  lemma ValuesAtMostOneMatch(sel: Selection)
    ensures |Filter(Values, sel)| <= 1
  {
    ValuesKeysDistinct();
    AtMostOneMatch(Values, sel);
  }

  // ---------------------------------------------------------------------
  // Scenarios

  lemma CristobalToKashimaByGreatCircle(speedText: real -> string)
    ensures UpdateRow(Values, Some("GC"), Some("Panama Canal"), Some("Kashima"), Some("Cristobal"), speedText)
      == Readout(speedText(6.12), "8,531", "638", "$425/MT")
  {
    var sel := Selection(Some("Cristobal"), Some("Kashima"), Some("GC"), Some("Panama Canal"));
    assert Matches(Values[0], sel);
    ThousandsExamples();
    PriceTextExamples();
  }

  lemma BusanToQingdaoViaCapeHorn(speedText: real -> string)
    ensures UpdateRow(Values, Some("RL"), Some("Cape Horn"), Some("Qingdao"), Some("Busan"), speedText)
      == Readout(speedText(10.05), "18,088", "1,800", "$390/MT")
  {
    var sel := Selection(Some("Busan"), Some("Qingdao"), Some("RL"), Some("Cape Horn"));
    assert forall k :: 0 <= k < 9 ==> !Matches(Values[k], sel);
    assert Matches(Values[9], sel);
    ThousandsExamples();
    ThousandsLargeExamples();
    PriceTextExamples();
  }

  /** Unknown ports, or a dropdown left unset, show "NA" in every box. */
  lemma UnknownPortsShowNA(speedText: real -> string, gc: Option<string>, pc: Option<string>)
    ensures UpdateRow(Values, Some("GC"), Some("Cape Horn"), Some("Nowhere"), Some("Unknown"), speedText) == NotAvailable
    ensures UpdateRow(Values, gc, pc, None, Some("Busan"), speedText) == NotAvailable
    ensures UpdateRow(Values, gc, pc, Some("Qingdao"), None, speedText) == NotAvailable
  {
  }
}
