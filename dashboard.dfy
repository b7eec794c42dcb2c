/**
 * The dashboard's appointments-per-specialty chart: one entry per specialty,
 * in the order specialties are first met, counting the appointments whose
 * dentist is known.
 */
module Dashboard {
  import opened Wrappers
  import opened Types
  import opened Records

  /** One slice of the chart. */
  datatype SpecialtyCount = SpecialtyCount(name: string, value: nat)

  /** The first dentist with this id, if any. */
  function FindById(d: seq<Dentista>, id: string): (r: Option<Dentista>)
    ensures r.Some? <==> HasKey(d, DentistaKey, id)
    ensures r.Some? ==> exists k :: 0 <= k < |d| && d[k] == r.value && r.value.id == id &&
                          forall j :: 0 <= j < k ==> d[j].id != id
  {
    if d == [] then None
    else if d[0].id == id then Some(d[0])
    else
      var r := FindById(d[1..], id);
      assert r.Some? ==> exists k :: 0 <= k < |d[1..]| && d[1..][k] == r.value && forall j :: 0 <= j < k ==> d[1..][j].id != id;
      assert HasKey(d[1..], DentistaKey, id) ==> HasKey(d, DentistaKey, id);
      r
  }

  /** The specialty an appointment is counted under: its dentist's, when the dentist is found. */
  function SpecialtyOf(d: seq<Dentista>, c: Cita): Option<string> {
    match FindById(d, c.dentistaId)
    case Some(doc) => Some(doc.especialidad)
    case None => None
  }

  /** How many of `c` are counted under `name`. */
  function CountOf(d: seq<Dentista>, c: seq<Cita>, name: string): nat {
    if c == [] then 0
    else CountOf(d, c[..|c| - 1], name) + (if SpecialtyOf(d, c[|c| - 1]) == Some(name) then 1 else 0)
  }

  /** How many of `c` have a known dentist. */
  function CountKnown(d: seq<Dentista>, c: seq<Cita>): nat {
    if c == [] then 0
    else CountKnown(d, c[..|c| - 1]) + (if SpecialtyOf(d, c[|c| - 1]).Some? then 1 else 0)
  }

  /** The value the chart shows for `name` (zero when it has no entry). */
  function ValueOf(chart: seq<SpecialtyCount>, name: string): nat {
    if chart == [] then 0
    else if chart[0].name == name then chart[0].value
    else ValueOf(chart[1..], name)
  }

  function Names(chart: seq<SpecialtyCount>): seq<string> {
    if chart == [] then [] else [chart[0].name] + Names(chart[1..])
  }

  predicate DistinctNames(chart: seq<SpecialtyCount>) {
    forall i, j :: 0 <= i < j < |chart| ==> chart[i].name != chart[j].name
  }

  /** The sum of the chart's values. */
  function Total(chart: seq<SpecialtyCount>): nat {
    if chart == [] then 0 else chart[0].value + Total(chart[1..])
  }

  /**
   * One more appointment for `name`: the entry for `name` goes up by
   * one, a new entry is added at the end when there was none, and every other
   * entry is left alone.
   */
  function Bump(chart: seq<SpecialtyCount>, name: string): (r: seq<SpecialtyCount>)
    ensures ValueOf(r, name) == ValueOf(chart, name) + 1
    ensures forall other :: other != name ==> ValueOf(r, other) == ValueOf(chart, other)
    ensures Names(r) == if name in Names(chart) then Names(chart) else Names(chart) + [name]
    ensures Total(r) == Total(chart) + 1
    ensures (forall e :: e in chart ==> e.value > 0) ==> forall e :: e in r ==> e.value > 0
  {
    if chart == [] then [SpecialtyCount(name, 1)]
    else if chart[0].name == name then
      var r := [chart[0].(value := chart[0].value + 1)] + chart[1..];
      assert r[1..] == chart[1..];
      r
    else
      var tail := Bump(chart[1..], name);
      var r := [chart[0]] + tail;
      assert r[1..] == tail;
      assert Names(chart) == [chart[0].name] + Names(chart[1..]);
      r
  }

  /** `Names` lists the entries' names, position by position. */
  lemma {:induction false} NamesAreNames(chart: seq<SpecialtyCount>)
    ensures |Names(chart)| == |chart|
    ensures forall k :: 0 <= k < |chart| ==> Names(chart)[k] == chart[k].name
  {
    if chart != [] {
      NamesAreNames(chart[1..]);
    }
  }

  /** Bumping a chart with distinct names keeps the names distinct. */
  lemma BumpKeepsNamesDistinct(chart: seq<SpecialtyCount>, name: string)
    requires DistinctNames(chart)
    ensures DistinctNames(Bump(chart, name))
  {
    var r := Bump(chart, name);
    NamesAreNames(chart);
    NamesAreNames(r);
    if name !in Names(chart) {
      forall i, j | 0 <= i < j < |r| ensures r[i].name != r[j].name {
        assert r[i].name == Names(chart)[i];
        if j < |chart| { assert r[j].name == Names(chart)[j]; }
      }
    } else {
      forall i, j | 0 <= i < j < |r| ensures r[i].name != r[j].name {
        assert r[i].name == Names(chart)[i] && r[j].name == Names(chart)[j];
      }
    }
  }

  /**
   * The chart the dashboard draws from the dentists `d` and the appointments
   * `c`: one entry per specialty met, each counting the appointments filed
   * under it; appointments with an unknown dentist are skipped, so the values
   * add up to the number of appointments whose dentist exists.
   */
  method AppointmentsBySpecialty(d: seq<Dentista>, c: seq<Cita>) returns (chart: seq<SpecialtyCount>)
    ensures DistinctNames(chart)
    ensures forall name :: ValueOf(chart, name) == CountOf(d, c, name)
    ensures forall e :: e in chart ==> e.value > 0
    ensures Total(chart) == CountKnown(d, c)
  {
    chart := [];
    for i := 0 to |c|
      invariant DistinctNames(chart)
      invariant forall name :: ValueOf(chart, name) == CountOf(d, c[..i], name)
      invariant forall e :: e in chart ==> e.value > 0
      invariant Total(chart) == CountKnown(d, c[..i])
    {
      assert c[..i + 1][..i] == c[..i];
      var doc := FindById(d, c[i].dentistaId);
      if doc.Some? {
        BumpKeepsNamesDistinct(chart, doc.value.especialidad);
        chart := Bump(chart, doc.value.especialidad);
      }
    }
    assert c[..|c|] == c;
  }
}
