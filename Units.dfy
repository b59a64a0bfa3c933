/**
 * Payloads seen as code units. `str.splitlines` works on characters and
 * `bytes.splitlines` on bytes; the line machinery works on a sequence of
 * integers of either kind, and this module converts between the two views.
 */
module Units {
  import opened Codec
  import opened Lines

  function KindOf(d: Data): Kind {
    if d.Text? then TextKind else BytesKind
  }

  /** The integers that are characters (Unicode scalar values) or bytes. */
  predicate IsUnit(k: Kind, u: int) {
    if k == TextKind then IsScalar(u) else 0 <= u < 256
  }

  predicate AreUnits(k: Kind, s: seq<int>) {
    forall u :: u in s ==> IsUnit(k, u)
  }

  function Size(d: Data): nat {
    if d.Text? then |d.text| else |d.bytes|
  }

  function UnitsOf(d: Data): (r: seq<int>)
    ensures |r| == Size(d)
    ensures AreUnits(KindOf(d), r)
  {
    match d
    case Text(t) => seq(|t|, i requires 0 <= i < |t| => t[i] as int)
    case Bytes(b) => seq(|b|, i requires 0 <= i < |b| => b[i] as int)
  }

  function DataOf(k: Kind, s: seq<int>): (r: Data)
    requires AreUnits(k, s)
    ensures KindOf(r) == k
    ensures UnitsOf(r) == s
  {
    if k == TextKind then
      var t := seq(|s|, i requires 0 <= i < |s| => assert s[i] in s; s[i] as char);
      assert UnitsOf(Text(t)) == s by {
        forall i | 0 <= i < |s| ensures UnitsOf(Text(t))[i] == s[i] {
          assert s[i] in s;
        }
      }
      Text(t)
    else
      var b := seq(|s|, i requires 0 <= i < |s| => assert s[i] in s; s[i] as byte);
      assert UnitsOf(Bytes(b)) == s by {
        forall i | 0 <= i < |s| ensures UnitsOf(Bytes(b))[i] == s[i] {
          assert s[i] in s;
        }
      }
      assert k == BytesKind;
      Bytes(b)
  }

  /** Viewing a payload as units and back gives the payload. */
  lemma DataOfUnits(d: Data)
    ensures DataOf(KindOf(d), UnitsOf(d)) == d
  {
    var r := DataOf(KindOf(d), UnitsOf(d));
    match d
    case Text(t) =>
      assert r.text == t by {
        forall i | 0 <= i < |t| ensures r.text[i] == t[i] {
          assert UnitsOf(r)[i] == UnitsOf(d)[i];
        }
      }
    case Bytes(b) =>
      assert r.bytes == b by {
        forall i | 0 <= i < |b| ensures r.bytes[i] == b[i] {
          assert UnitsOf(r)[i] == UnitsOf(d)[i];
        }
      }
  }

  /** The empty payload of a kind: `""` or `b""`. */
  function EmptyOf(k: Kind): (r: Data)
    ensures KindOf(r) == k && UnitsOf(r) == []
  {
    match k
    case TextKind => assert |UnitsOf(Text([]))| == 0; Text([])
    case BytesKind => assert |UnitsOf(Bytes([]))| == 0; Bytes([])
  }

  /** Units of a kind, split into lines, give lines made of units of that kind. */
  lemma LinesAreUnits(s: seq<int>, k: Kind)
    requires AreUnits(k, s)
    ensures forall j :: 0 <= j < |SplitLines(s, k)| ==> AreUnits(k, SplitLines(s, k)[j])
  {
    SplitLinesWithin(s, k);
    var L := SplitLines(s, k);
    forall j | 0 <= j < |L| ensures AreUnits(k, L[j]) {
      forall u | u in L[j] ensures IsUnit(k, u) {
        assert u in s;
      }
    }
  }

  /** `d.splitlines()` for a `str` or `bytes` payload. */
  function DataLines(d: Data): (r: seq<Data>)
    ensures |r| == |SplitLines(UnitsOf(d), KindOf(d))|
    ensures forall j :: 0 <= j < |r| ==>
      KindOf(r[j]) == KindOf(d) && UnitsOf(r[j]) == SplitLines(UnitsOf(d), KindOf(d))[j]
  {
    var k := KindOf(d);
    var L := SplitLines(UnitsOf(d), k);
    LinesAreUnits(UnitsOf(d), k);
    seq(|L|, j requires 0 <= j < |L| => DataOf(k, L[j]))
  }

  /** A payload is determined by its kind and its units. */
  lemma SameUnits(a: Data, b: Data)
    requires KindOf(a) == KindOf(b) && UnitsOf(a) == UnitsOf(b)
    ensures a == b
  {
    DataOfUnits(a);
    DataOfUnits(b);
  }

  /** The slices of a payload's units are units of its kind. */
  lemma SlicesAreUnits(k: Kind, s: seq<int>, w: nat, slices: seq<seq<int>>)
    requires AreUnits(k, s) && IsSlicing(s, w, slices)
    ensures forall j :: 0 <= j < |slices| ==> AreUnits(k, slices[j])
  {
    forall j, u | 0 <= j < |slices| && u in slices[j] ensures IsUnit(k, u) {
      FlattenMember(slices, j, u);
    }
  }

  function UnitsEach(ds: seq<Data>): (r: seq<seq<int>>)
    ensures |r| == |ds| && forall j :: 0 <= j < |ds| ==> r[j] == UnitsOf(ds[j])
  {
    seq(|ds|, j requires 0 <= j < |ds| => UnitsOf(ds[j]))
  }

  /** Two payloads of one kind, one after the other. */
  function Append(a: Data, b: Data): (r: Data)
    requires KindOf(a) == KindOf(b)
    ensures KindOf(r) == KindOf(a)
    ensures UnitsOf(r) == UnitsOf(a) + UnitsOf(b)
  {
    if a.Text? then
      var r := Text(a.text + b.text);
      assert UnitsOf(r) == UnitsOf(a) + UnitsOf(b);
      r
    else
      var r := Bytes(a.bytes + b.bytes);
      assert UnitsOf(r) == UnitsOf(a) + UnitsOf(b);
      r
  }

  /** `empty.join(parts)`: the parts of one kind, one after another. */
  function Concat(k: Kind, ds: seq<Data>): (r: Data)
    requires forall j :: 0 <= j < |ds| ==> KindOf(ds[j]) == k
    ensures KindOf(r) == k
    ensures UnitsOf(r) == Flatten(UnitsEach(ds))
  {
    if ds == [] then EmptyOf(k)
    else
      var r := Append(ds[0], Concat(k, ds[1..]));
      assert UnitsEach(ds)[1..] == UnitsEach(ds[1..]);
      r
  }
}
