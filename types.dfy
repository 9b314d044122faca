/** Records shared by the palette store, the legacy string-palette hooks and the migration. */
module Types {

  datatype Option<T> = None | Some(value: T) {
    function GetOr(default: T): T {
      match this
      case Some(v) => v
      case None => default
    }
  }

  /** A user-supplied colour; identity is by `id`, two colours may share a `value`.
      `displayLabel` is the optional `label` field (`label` is a Dafny keyword). */
  datatype Color = Color(id: string, value: string, displayLabel: Option<string>)

  /** A generated or hand-made palette of the Redux store. */
  datatype Palette = Palette(id: string, colors: seq<Color>, used: bool, createdAt: int)

  /** A palette of the older, string-based generator (no id, no timestamp). */
  datatype StrPalette = StrPalette(colors: seq<string>, used: bool)

  /** Outcome of adding a palette by hand, as the store reports it to the dialog. */
  datatype ManualStatus = Idle | Added | Exist | AlreadyUsed | Invalid

  /** Position (1-based) -> colour value -> count. JS key order is presentation only. */
  type Statistics = map<int, map<string, int>>

  /** The ordered colour values of a colour list: the signature `JSON.stringify(colors.map(c => c.value))`. */
  function Values(cs: seq<Color>): (r: seq<string>)
    ensures |r| == |cs|
    ensures forall i :: 0 <= i < |cs| ==> r[i] == cs[i].value
  {
    if cs == [] then [] else [cs[0].value] + Values(cs[1..])
  }

  function Filter<T(!new)>(s: seq<T>, keep: T -> bool): (r: seq<T>)
    ensures |r| <= |s|
    ensures forall x :: x in r <==> x in s && keep(x)
  {
    if s == [] then []
    else if keep(s[0]) then [s[0]] + Filter(s[1..], keep)
    else Filter(s[1..], keep)
  }

  lemma FilterAppend<T(!new)>(a: seq<T>, b: seq<T>, keep: T -> bool)
    ensures Filter(a + b, keep) == Filter(a, keep) + Filter(b, keep)
  {
    if a == [] {
      assert a + b == b;
    } else {
      assert (a + b)[0] == a[0];
      assert (a + b)[1..] == a[1..] + b;
      FilterAppend(a[1..], b, keep);
    }
  }

  function UsedOf(ps: seq<Palette>): seq<Palette> { Filter(ps, (p: Palette) => p.used) }

  function UnusedOf(ps: seq<Palette>): seq<Palette> { Filter(ps, (p: Palette) => !p.used) }

  /** Splitting into used and unused palettes loses and invents nothing. */
  lemma {:induction false} UsedUnusedMultiset(ps: seq<Palette>)
    ensures multiset(UsedOf(ps)) + multiset(UnusedOf(ps)) == multiset(ps)
  {
    if ps != [] {
      UsedUnusedMultiset(ps[1..]);
      assert ps == [ps[0]] + ps[1..];
    }
  }

  /** `Array.prototype.findIndex`: the first position satisfying `test`, or -1. */
  function FindIndex<T>(s: seq<T>, test: T -> bool): (r: int)
    ensures -1 <= r < |s|
    ensures r == -1 <==> forall j :: 0 <= j < |s| ==> !test(s[j])
    ensures r >= 0 ==> test(s[r]) && forall j :: 0 <= j < r ==> !test(s[j])
  {
    if s == [] then -1
    else if test(s[0]) then 0
    else
      var k := FindIndex(s[1..], test);
      if k == -1 then -1 else k + 1
  }

  /** No two positions of `s` hold the same value. */
  predicate Distinct<T(==)>(s: seq<T>) {
    forall i, j :: 0 <= i < j < |s| ==> s[i] != s[j]
  }

  /** ASCII upper-casing, the part of `String.prototype.toUpperCase` hex strings exercise. */
  function UpperChar(c: char): char {
    if 'a' <= c <= 'z' then (c as int - 32) as char else c
  }

  function Upper(s: string): (r: string)
    ensures |r| == |s|
    ensures forall i :: 0 <= i < |s| ==> r[i] == UpperChar(s[i])
  {
    if s == [] then [] else [UpperChar(s[0])] + Upper(s[1..])
  }
}
