/**
 * The recursive operations on a directory prefix: rmdir, which deletes what
 * iterdir yields below a path, and rename / replace, which copy objects to
 * the target and delete the source. Both recurse through `iterdir` the way
 * the interpreter does; `fuel` is the call depth left before the
 * interpreter's recursion limit.
 */
module Tree {
  import opened Wrappers
  import opened Paths
  import opened Store
  import opened Directory
  import opened Mutations

  type Objects = map<string, map<string, Obj>>

  // ---------------------------------------------------------------------
  // Regions of the store

  /** The key `k` of container `c` lies inside directory `p` (everything, for the root). */
  predicate Inside(p: Path, c: string, k: string)
  {
    p.segs == [] || (c == p.segs[0] && Under(p) <= k)
  }

  /** The key lies inside `p` or is the object `p` names. */
  predicate AtOrInside(p: Path, c: string, k: string)
  {
    Inside(p, c, k) || (|p.segs| >= 2 && c == p.segs[0] && k == KeyOf(p))
  }

  /** Both stores hold the same thing (or nothing) at (c, k). */
  predicate Same(a: Objects, b: Objects, c: string, k: string)
  {
    (c in a && k in a[c]) == (c in b && k in b[c]) &&
    (c in a && k in a[c] ==> a[c][k] == b[c][k])
  }

  /** A `.swiftkeep` directory marker: a key whose last component is the marker name. */
  predicate IsMarkerKey(k: string)
  {
    Basename(k) == Keep
  }

  /** No marker object appears, disappears or changes. */
  ghost predicate MarkersUnchanged(a: Objects, b: Objects)
  {
    forall c, k :: IsMarkerKey(k) ==> Same(a, b, c, k)
  }

  /**
   * `b` is `a` with some objects inside `p` deleted: the containers are the
   * same, nothing is added or altered, and whatever lies outside `p`, and
   * every marker, is still there.
   */
  predicate Removed(a: Objects, b: Objects, p: Path)
  {
    a.Keys == b.Keys &&
    (forall c, k :: c in b && k in b[c] ==> k in a[c] && a[c][k] == b[c][k]) &&
    (forall c, k :: c in a && k in a[c] && (!Inside(p, c, k) || IsMarkerKey(k)) ==> k in b[c])
  }

  /** `b` differs from `a` only at the source `src` and the target `t` (objects at them or inside them). */
  ghost predicate Kept(a: Objects, b: Objects, src: Path, t: Path)
  {
    a.Keys == b.Keys &&
    forall c, k :: !AtOrInside(src, c, k) && !AtOrInside(t, c, k) ==> Same(a, b, c, k)
  }

  // ---------------------------------------------------------------------
  // Keys of children

  /** The key of `p / n` is `p`'s prefix followed by `n`. */
  lemma ChildKey(p: Path, n: Segment)
    requires |p.segs| >= 1
    ensures KeyOf(Child(p, n)) == Under(p) + n
    ensures Under(Child(p, n)) == Under(p) + n + [Sep]
  {
    var q := Child(p, n);
    if |p.segs| == 1 {
      assert q.segs[1..] == [n];
    } else {
      assert q.segs[1..] == p.segs[1..] + [n];
      JoinConcat(p.segs[1..], [n]);
    }
  }

  /** Whatever lies at or inside `p / n` lies inside `p`. */
  lemma ChildWithin(p: Path, n: Segment)
    ensures forall c, k :: AtOrInside(Child(p, n), c, k) ==> Inside(p, c, k)
  {
    if |p.segs| >= 1 {
      ChildKey(p, n);
      var u := Under(p);
      forall c, k | AtOrInside(Child(p, n), c, k) ensures Inside(p, c, k) {
        if Inside(Child(p, n), c, k) {
          assert u <= u + n + [Sep] <= k;
        } else {
          assert k == u + n;
        }
      }
    }
  }

  /** The last component of an object's key is the path's last component. */
  lemma BasenameOfKey(p: Path)
    requires |p.segs| >= 2
    ensures Basename(KeyOf(p)) == p.segs[|p.segs| - 1]
  {
    var n := p.segs[|p.segs| - 1];
    if |p.segs| == 2 {
      assert p.segs[1..] == [n];
      assert KeyOf(p) == "" + n;
      BasenameAfterSep("", n);
    } else {
      var a := p.segs[1..|p.segs| - 1];
      assert p.segs[1..] == a + [n];
      JoinConcat(a, [n]);
      assert Join([n]) == n;
      assert KeyOf(p) == (Join(a) + [Sep]) + n;
      BasenameAfterSep(Join(a) + [Sep], n);
    }
  }

  // ---------------------------------------------------------------------
  // What iterdir yields

  /**
   * An item iterdir yields for `p`: a child whose name is not the marker,
   * or, for the root or a container, `p` itself (the empty name).
   */
  predicate ItemOf(p: Path, q: Path)
  {
    (q == p && |p.segs| <= 1) ||
    (|q.segs| == |p.segs| + 1 && q == Child(p, q.segs[|p.segs|]) && q.segs[|p.segs|] != Keep)
  }

  /** Stripping trailing separators keeps everything up to a non-separator. */
  lemma {:induction false} RStripKeeps(w: string, i: nat)
    requires i < |w| && w[i] != Sep
    ensures |RStrip(w)| > i && RStrip(w)[|RStrip(w)| - 1] != Sep
  {
    if w[|w| - 1] == Sep {
      RStripKeeps(w[..|w| - 1], i);
    }
  }

  /** Every row of a listing starts with the listing's prefix. */
  lemma RowPrefix(s: Store, c: string, prefix: string, d: char, e: Entry)
    requires c in s.objects
    requires e in s.Listing(c, prefix, Some(d)).value.1
    ensures prefix <= RowName(e)
  {
    ListingRowFromKey(s, c, prefix, Some(d), e);
    var k :| k in s.objects[c] && prefix <= k && e == EntryOf(prefix, Some(d), k, s.objects[c][k]);
  }

  /** Below a container, listdir never reports the empty name. */
  lemma NameNonEmpty(s: Store, p: Path, e: Entry)
    requires p.absolute && |p.segs| >= 2 && p.segs[0] in s.objects
    requires e in s.Listing(p.segs[0], Under(p), Some(Sep)).value.1
    ensures NameOf(e) != ""
  {
    RowPrefix(s, p.segs[0], Under(p), Sep, e);
    var w := RowName(e);
    var j := KeyOf(p);
    JoinSegmentsNoEdgeSep(p.segs[1..]);
    assert w[0] == j[0] && w[|j| - 1] == j[|j| - 1];
    assert LStrip(w) == w;
    RStripKeeps(w, |j| - 1);
  }

  /** Every item iterdir yields is `p` itself (at a container or the root) or a non-marker child. */
  lemma ItemShapes(s: Store, p: Path, items: seq<Path>)
    requires p.absolute && (p.segs != [] ==> p.segs[0] in s.objects)
    requires forall q :: q in items <==>
      exists n :: n in ListedNames(s, p) && !Skipped(n, false) && q == ChildNamed(p, n)
    requires forall q :: q in items && q != p ==>
      q.absolute && |q.segs| == |p.segs| + 1 && q.segs[..|p.segs|] == p.segs && !Skipped(q.segs[|p.segs|], false)
    ensures forall q :: q in items ==> ItemOf(p, q)
  {
    forall q | q in items ensures ItemOf(p, q) {
      if q == p {
        if |p.segs| >= 2 {
          var n :| n in ListedNames(s, p) && !Skipped(n, false) && q == ChildNamed(p, n);
          var e :| e in s.Listing(p.segs[0], Under(p), Some(Sep)).value.1 && n == NameOf(e);
          NameNonEmpty(s, p, e);
        }
      } else {
        assert q.segs == p.segs + [q.segs[|p.segs|]];
      }
    }
  }

  /** Whatever lies at or inside an item lies inside `p`. */
  lemma ItemWithin(p: Path, q: Path)
    requires ItemOf(p, q)
    ensures forall c, k :: AtOrInside(q, c, k) ==> Inside(p, c, k)
  {
    if q != p {
      ChildWithin(p, q.segs[|p.segs|]);
    }
  }

  /** Deleting an item that is no directory deletes a non-marker key inside `p`. */
  lemma ItemKey(p: Path, q: Path)
    requires ItemOf(p, q) && |q.segs| >= 2 && q != p
    ensures Inside(p, q.segs[0], KeyOf(q)) && !IsMarkerKey(KeyOf(q))
  {
    ItemWithin(p, q);
    assert AtOrInside(q, q.segs[0], KeyOf(q));
    BasenameOfKey(q);
  }

  // ---------------------------------------------------------------------
  // Composing frames

  lemma RemovedTrans(a: Objects, b: Objects, c: Objects, p: Path)
    requires Removed(a, b, p) && Removed(b, c, p)
    ensures Removed(a, c, p)
  {
  }

  lemma RemovedWiden(a: Objects, b: Objects, q: Path, p: Path)
    requires Removed(a, b, q)
    requires forall c, k :: AtOrInside(q, c, k) ==> Inside(p, c, k)
    ensures Removed(a, b, p)
  {
    forall c, k | c in a && k in a[c] && (!Inside(p, c, k) || IsMarkerKey(k)) ensures k in b[c] {
      if !Inside(p, c, k) {
        assert !AtOrInside(q, c, k);
      }
    }
  }

  /** Deleting one non-marker key inside `p` is a removal inside `p`. */
  lemma RemovedByDelete(a: Objects, b: Objects, p: Path, c: string, k: string)
    requires c in b && Inside(p, c, k) && !IsMarkerKey(k)
    requires Removed(a, b, p)
    ensures Removed(a, b[c := b[c] - {k}], p)
  {
  }

  // ---------------------------------------------------------------------
  // Well-formed keys

  /**
   * What follows a directory's prefix in a key names something properly:
   * components that are non-empty and neither "." nor "..", single
   * separators, no trailing separator, and the marker name only last.
   */
  predicate WellFormedRest(r: string)
    decreases |r|
  {
    var n := TakeUntil(r, {Sep});
    IsSegment(n) && n != ".." && (|n| < |r| ==> n != Keep && WellFormedRest(r[|n| + 1..]))
  }

  /** The prefix of every key inside `p`. */
  function Prefix(p: Path): string
  {
    if p.segs == [] then "" else Under(p)
  }

  /**
   * The store is well formed at and below `p`: every key inside `p` is its
   * prefix followed by a well-formed rest, no object's key is also the
   * prefix of a directory, and below the root every container with objects
   * has a proper name.
   */
  predicate WellFormedUnder(m: Objects, p: Path)
  {
    forall c, k :: c in m && k in m[c] && AtOrInside(p, c, k) ==>
      (p.segs == [] ==> IsSegment(c) && c != ".." && c != Keep) &&
      (Inside(p, c, k) ==> Prefix(p) <= k && WellFormedRest(k[|Prefix(p)|..])) &&
      (forall k2 :: k2 in m[c] ==> !(k + [Sep] <= k2))
  }

  /** Every object left inside `p` is a marker. */
  predicate OnlyMarkersInside(m: Objects, p: Path)
  {
    forall c, k :: c in m && k in m[c] && Inside(p, c, k) ==> IsMarkerKey(k)
  }

  /** Every object left at or inside `q` is a marker. */
  predicate OnlyMarkersAt(m: Objects, q: Path)
  {
    forall c, k :: c in m && k in m[c] && AtOrInside(q, c, k) ==> IsMarkerKey(k)
  }

  /** No object inside `p` is a marker. */
  predicate NoMarkersInside(m: Objects, p: Path)
  {
    forall c, k :: c in m && k in m[c] && Inside(p, c, k) ==> !IsMarkerKey(k)
  }

  /** Nothing at or inside `p` is in `b` that was not in `a`. */
  predicate NoneAdded(a: Objects, b: Objects, p: Path)
  {
    forall c, k :: c in b && k in b[c] && AtOrInside(p, c, k) ==> c in a && k in a[c]
  }

  /** A well-formed rest that starts with the component `n` continues with a well-formed rest. */
  lemma RestAfter(n: Segment, x: string)
    requires WellFormedRest(n + [Sep] + x)
    ensures n != Keep && WellFormedRest(x)
  {
    TakeUntilPrefix(n, [Sep] + x, {Sep});
    assert n + [Sep] + x == n + ([Sep] + x);
    assert (n + [Sep] + x)[|n| + 1..] == x;
  }

  /** A key that extends a key at or inside `p` with a separator lies inside `p`. */
  lemma LongerInside(p: Path, c: string, k: string, k2: string)
    requires AtOrInside(p, c, k) && k + [Sep] <= k2
    ensures Inside(p, c, k2)
  {
    assert k <= k + [Sep];
  }

  /** Well-formedness at `p` holds at every item iterdir yields for `p`. */
  lemma WellFormedItem(m: Objects, p: Path, q: Path)
    requires ItemOf(p, q) && WellFormedUnder(m, p)
    ensures WellFormedUnder(m, q)
  {
    if q != p {
      var n := q.segs[|p.segs|];
      ItemWithin(p, q);
      if |p.segs| >= 1 {
        ChildKey(p, n);
      }
      forall c, k | c in m && k in m[c] && Inside(q, c, k)
        ensures Prefix(q) <= k && WellFormedRest(k[|Prefix(q)|..])
      {
        assert AtOrInside(p, c, k);
        if |p.segs| >= 1 {
          var u := Under(p);
          assert k[|u|..] == n + [Sep] + k[|Prefix(q)|..];
          RestAfter(n, k[|Prefix(q)|..]);
        }
      }
    }
  }

  /** Well-formedness at `p` survives when nothing is added there. */
  lemma WellFormedShrinks(a: Objects, b: Objects, p: Path)
    requires WellFormedUnder(a, p) && NoneAdded(a, b, p)
    ensures WellFormedUnder(b, p)
  {
    forall c, k, k2 | c in b && k in b[c] && AtOrInside(p, c, k) && k2 in b[c] ensures !(k + [Sep] <= k2) {
      if k + [Sep] <= k2 {
        LongerInside(p, c, k, k2);
      }
    }
  }

  /** The component after `p`'s prefix in a well-formed key that is no marker names a child holding the key. */
  lemma NextChild(p: Path, c: string, k: string)
    requires |p.segs| >= 1 && c == p.segs[0] && Under(p) <= k
    requires WellFormedRest(k[|Under(p)|..]) && !IsMarkerKey(k)
    ensures IsSegment(NextSegment(p, k)) && NextSegment(p, k) != Keep && NextSegment(p, k) != ".."
    ensures AtOrInside(Child(p, NextSegment(p, k)), c, k)
  {
    var u := Under(p);
    var rest := k[|u|..];
    var n := TakeUntil(rest, {Sep});
    UnderShape(p);
    ChildKey(p, n);
    if |n| < |rest| {
      assert rest[..|n|] == n && rest[|n|] == Sep;
      assert k[..|u| + |n| + 1] == u + n + [Sep];
    } else {
      assert k == u + n;
      BasenameAfterSep(u, n);
    }
  }

  /** In a well-formed store, every non-marker key inside `p` lies at or inside a child iterdir yields. */
  lemma OwnerChild(s: Store, p: Path, c: string, k: string) returns (n: Segment)
    requires p.absolute && (p.segs != [] ==> p.segs[0] in s.objects)
    requires WellFormedUnder(s.objects, p)
    requires c in s.objects && k in s.objects[c] && Inside(p, c, k) && !IsMarkerKey(k)
    ensures n in ListedNames(s, p) && !Skipped(n, false) && AtOrInside(Child(p, n), c, k)
  {
    assert AtOrInside(p, c, k);
    if p.segs == [] {
      n := c;
      assert Child(p, n).segs == [c];
    } else {
      NextChild(p, c, k);
      n := NextSegment(p, k);
      ListedNextSegment(s, p, k);
    }
  }

  /** In a well-formed store, every non-marker key inside `p` lies at or inside one of iterdir's items. */
  lemma Covered(s: Store, m: Objects, p: Path, items: seq<Path>)
    requires m == s.objects && p.absolute && (p.segs != [] ==> p.segs[0] in m)
    requires WellFormedUnder(m, p)
    requires forall q :: q in items <==>
      exists n :: n in ListedNames(s, p) && !Skipped(n, false) && q == ChildNamed(p, n)
    ensures forall c, k :: c in m && k in m[c] && Inside(p, c, k) && !IsMarkerKey(k) ==>
      exists j :: 0 <= j < |items| && AtOrInside(items[j], c, k)
  {
    forall c, k | c in m && k in m[c] && Inside(p, c, k) && !IsMarkerKey(k)
      ensures exists j :: 0 <= j < |items| && AtOrInside(items[j], c, k)
    {
      var n := OwnerChild(s, p, c, k);
      assert Child(p, n) == ChildNamed(p, n);
      assert Child(p, n) in items;
    }
  }

  /** In a well-formed store, a directory with contents is not also an object. */
  lemma DirIsNoFile(m: Objects, q: Path, k: string)
    requires WellFormedUnder(m, q) && |q.segs| >= 2 && q.segs[0] in m
    requires k in m[q.segs[0]] && Under(q) <= k
    ensures KeyOf(q) !in m[q.segs[0]]
  {
    if KeyOf(q) in m[q.segs[0]] {
      assert AtOrInside(q, q.segs[0], KeyOf(q));
    }
  }

  /** After a removal inside `q` that leaves only markers inside it, only markers lie at or inside `q` when there was no object at `q`. */
  lemma OnlyMarkersAtDir(a: Objects, b: Objects, q: Path)
    requires Removed(a, b, q) && OnlyMarkersInside(b, q)
    requires |q.segs| >= 2 && q.segs[0] in a ==> KeyOf(q) !in a[q.segs[0]]
    ensures OnlyMarkersAt(b, q)
  {
  }

  /** Deleting the object at `q`, when nothing lies inside `q`, leaves nothing at or inside `q`. */
  lemma OnlyMarkersAtFile(a: Objects, q: Path)
    requires |q.segs| >= 2 && q.segs[0] in a
    requires forall k :: k in a[q.segs[0]] ==> !(Under(q) <= k)
    ensures OnlyMarkersAt(a[q.segs[0] := a[q.segs[0]] - {KeyOf(q)}], q)
  {
  }

  // ---------------------------------------------------------------------
  // rmdir

  /**
   * `_SwiftAccessor.rmdir`: each item iterdir yields is removed with rmdir
   * when it is a directory and deleted as an object otherwise; a listing
   * that raises FileNotFoundError ends the call normally.
   */
  method Rmdir(s: Store, p: Path, fuel: nat) returns (r: Result<()>)
    modifies s
    decreases fuel, 2
    ensures !p.absolute ==> r == Err(InvalidPath) && s.objects == old(s.objects)
    ensures p.absolute && p.segs != [] && p.segs[0] !in old(s.objects) ==> r == Ok(()) && s.objects == old(s.objects)
    ensures Removed(old(s.objects), s.objects, p)
    ensures p.absolute && r.Err? ==> r.error == ClientError || r.error == RecursionLimit
    ensures r.Ok? && p.absolute && p.segs != [] && p.segs[0] in old(s.objects) ==>
      forall n :: n in old(ListedNames(s, p)) && !Skipped(n, false) && IsSegment(n) ==>
        FileGone(old(s.objects), s.objects, Child(p, n))
    ensures r.Ok? && p.absolute && old(WellFormedUnder(s.objects, p)) ==> OnlyMarkersInside(s.objects, p)
    ensures r.Ok? && p.absolute && |p.segs| >= 1 && old(IsDir(s, p)) == Ok(true) &&
            old(WellFormedUnder(s.objects, p)) && old(NoMarkersInside(s.objects, p)) ==>
              Exists(s, p) == Ok(false)
    ensures s.meta == old(s.meta)
  {
    var items := IterDir(s, p, false);
    if items.Err? {
      if !p.absolute {
        return Err(InvalidPath);
      }
      return Ok(());
    }
    ItemShapes(s, p, items.value);
    ghost var m0 := s.objects;
    ghost var names := ListedNames(s, p);
    ghost var wf := WellFormedUnder(m0, p);
    if wf {
      Covered(s, m0, p, items.value);
    }
    ListedItems(s, p, items.value);
    r := RmdirItems(s, p, items.value, fuel);
    if r.Err? {
      return;
    }
    GoneByItems(m0, s.objects, p, names, items.value);
    if wf {
      ClearedByItems(m0, s.objects, p, items.value);
      if |p.segs| >= 1 && HasContentsIn(m0, p) && NoMarkersInside(m0, p) {
        GoneWhenCleared(m0, s, p);
      }
    }
    r := Ok(());
  }

  /** Every listed name that is a proper component and not skipped gives an item. */
  lemma ListedItems(s: Store, p: Path, items: seq<Path>)
    requires p.absolute && (p.segs != [] ==> p.segs[0] in s.objects)
    requires forall q :: q in items <==>
      exists n :: n in ListedNames(s, p) && !Skipped(n, false) && q == ChildNamed(p, n)
    ensures forall n :: n in ListedNames(s, p) && !Skipped(n, false) && IsSegment(n) ==> Child(p, n) in items
  {
    forall n | n in ListedNames(s, p) && !Skipped(n, false) && IsSegment(n) ensures Child(p, n) in items {
      assert Child(p, n) == ChildNamed(p, n);
    }
  }

  lemma GoneByItems(a: Objects, b: Objects, p: Path, names: set<string>, items: seq<Path>)
    requires forall n :: n in names && !Skipped(n, false) && IsSegment(n) ==> Child(p, n) in items
    requires forall j :: 0 <= j < |items| ==> FileGone(a, b, items[j])
    ensures forall n :: n in names && !Skipped(n, false) && IsSegment(n) ==> FileGone(a, b, Child(p, n))
  {
    forall n | n in names && !Skipped(n, false) && IsSegment(n) ensures FileGone(a, b, Child(p, n)) {
      var j :| 0 <= j < |items| && items[j] == Child(p, n);
    }
  }

  /** The row of a listing below a well-formed directory, with the key it comes from. */
  lemma KeyOfRow(s: Store, p: Path, e: Entry) returns (k: string)
    requires p.absolute && |p.segs| >= 1 && p.segs[0] in s.objects && WellFormedUnder(s.objects, p)
    requires e in s.Listing(p.segs[0], Under(p), Some(Sep)).value.1
    ensures k in s.objects[p.segs[0]] && Under(p) <= k
    ensures e == EntryOf(Under(p), Some(Sep), k, s.objects[p.segs[0]][k])
    ensures IsSegment(NameOf(e)) && NameOf(e) == NextSegment(p, k)
  {
    ListingRowFromKey(s, p.segs[0], Under(p), Some(Sep), e);
    k :| k in s.objects[p.segs[0]] && Under(p) <= k && e == EntryOf(Under(p), Some(Sep), k, s.objects[p.segs[0]][k]);
    assert AtOrInside(p, p.segs[0], k);
    UnderShape(p);
    var e2 := RowOfKey(s, p, k);
  }

  /** In a well-formed store, no key at or inside `p` is followed by a separator in another key. */
  lemma NoClash(m: Objects, p: Path, c: string, a: string, b: string)
    requires WellFormedUnder(m, p) && c in m && a in m[c] && b in m[c] && AtOrInside(p, c, a)
    ensures !(a + [Sep] <= b)
  {
  }

  /** A key without a separator after `u` and a key with one, sharing the next component, nest. */
  lemma ObjectBelowSubdir(u: string, a: string, b: string)
    requires u <= a && u <= b && Sep !in a[|u|..] && Sep in b[|u|..]
    requires TakeUntil(a[|u|..], {Sep}) == TakeUntil(b[|u|..], {Sep})
    ensures a + [Sep] <= b
  {
    var n := TakeUntil(b[|u|..], {Sep});
    TakeUntilAll(a[|u|..], {Sep});
    assert a == u + n;
    var rb := b[|u|..];
    assert rb[..|n|] == n && rb[|n|] == Sep;
    assert b[..|a| + 1] == a + [Sep];
  }

  /** Two keys without a separator after `u` and with the same next component are equal. */
  lemma ObjectsByName(u: string, a: string, b: string)
    requires u <= a && u <= b && Sep !in a[|u|..] && Sep !in b[|u|..]
    requires TakeUntil(a[|u|..], {Sep}) == TakeUntil(b[|u|..], {Sep})
    ensures a == b
  {
    TakeUntilAll(a[|u|..], {Sep});
    TakeUntilAll(b[|u|..], {Sep});
    assert a == u + a[|u|..] && b == u + b[|u|..];
  }

  /** Two rows below a well-formed directory with the same name are the same row. */
  lemma RowsByName(s: Store, p: Path, e1: Entry, e2: Entry)
    requires p.absolute && |p.segs| >= 1 && p.segs[0] in s.objects && WellFormedUnder(s.objects, p)
    requires e1 in s.Listing(p.segs[0], Under(p), Some(Sep)).value.1
    requires e2 in s.Listing(p.segs[0], Under(p), Some(Sep)).value.1
    requires NameOf(e1) == NameOf(e2)
    ensures e1 == e2
  {
    var u := Under(p);
    var c := p.segs[0];
    var k1 := KeyOfRow(s, p, e1);
    var k2 := KeyOfRow(s, p, e2);
    if Sep !in k1[|u|..] && Sep !in k2[|u|..] {
      ObjectsByName(u, k1, k2);
    } else if Sep !in k1[|u|..] && Sep in k2[|u|..] {
      ObjectBelowSubdir(u, k1, k2);
      NoClash(s.objects, p, c, k1, k2);
    } else if Sep in k1[|u|..] && Sep !in k2[|u|..] {
      ObjectBelowSubdir(u, k2, k1);
      NoClash(s.objects, p, c, k2, k1);
    }
  }

  /** Below a well-formed directory, listdir's names are proper components and tell the rows apart. */
  lemma WellFormedListing(s: Store, p: Path)
    requires p.absolute && |p.segs| >= 1 && p.segs[0] in s.objects && WellFormedUnder(s.objects, p)
    ensures NamesDistinct(s, p) && ProperNames(s, p, false)
  {
    var rows := s.Listing(p.segs[0], Under(p), Some(Sep)).value.1;
    forall e1, e2 | e1 in rows && e2 in rows && NameOf(e1) == NameOf(e2) ensures e1 == e2 {
      RowsByName(s, p, e1, e2);
    }
    forall n | n in ListedNames(s, p) ensures IsSegment(n) {
      var e :| e in rows && n == NameOf(e);
      var k := KeyOfRow(s, p, e);
    }
  }

  /** When every item is cleared, whatever is left inside `p` is a marker. */
  lemma ClearedByItems(a: Objects, b: Objects, p: Path, items: seq<Path>)
    requires Removed(a, b, p)
    requires forall c, k :: c in a && k in a[c] && Inside(p, c, k) && !IsMarkerKey(k) ==>
      exists j :: 0 <= j < |items| && AtOrInside(items[j], c, k)
    requires forall j :: 0 <= j < |items| ==> OnlyMarkersAt(b, items[j])
    ensures OnlyMarkersInside(b, p)
  {
  }

  /** Some object of `p`'s container lies inside directory `p`. */
  predicate HasContentsIn(m: Objects, p: Path)
    requires |p.segs| >= 1
  {
    p.segs[0] in m && exists k :: k in m[p.segs[0]] && Under(p) <= k
  }

  /**
   * A directory without markers whose contents are all gone, with nothing
   * added at or inside it, no longer exists.
   */
  lemma GoneWhenCleared(a: Objects, s: Store, p: Path)
    requires p.absolute && |p.segs| >= 1
    requires WellFormedUnder(a, p) && HasContentsIn(a, p) && NoMarkersInside(a, p)
    requires NoneAdded(a, s.objects, p) && OnlyMarkersInside(s.objects, p)
    ensures Exists(s, p) == Ok(false)
  {
    if |p.segs| >= 2 {
      var k :| k in a[p.segs[0]] && Under(p) <= k;
      DirIsNoFile(a, p, k);
    }
    if HasContents(s, p) {
      var k :| k in s.objects[p.segs[0]] && Under(p) <= k;
      assert Inside(p, p.segs[0], k);
    }
  }

  /** Rmdir's loop: every item, in order, is removed; the first failure stops it. */
  method RmdirItems(s: Store, p: Path, items: seq<Path>, fuel: nat) returns (r: Result<()>)
    requires p.absolute && forall q :: q in items ==> ItemOf(p, q)
    modifies s
    decreases fuel, 1
    ensures Removed(old(s.objects), s.objects, p)
    ensures r.Err? ==> r.error == ClientError || r.error == RecursionLimit
    ensures r.Ok? ==> forall j :: 0 <= j < |items| ==> FileGone(old(s.objects), s.objects, items[j])
    ensures r.Ok? && old(WellFormedUnder(s.objects, p)) ==> forall j :: 0 <= j < |items| ==> OnlyMarkersAt(s.objects, items[j])
    ensures s.meta == old(s.meta)
  {
    r := Ok(());
    ghost var wf := WellFormedUnder(s.objects, p);
    for i := 0 to |items|
      invariant r.Ok?
      invariant Removed(old(s.objects), s.objects, p)
      invariant s.meta == old(s.meta)
      invariant forall j :: 0 <= j < i ==> FileGone(old(s.objects), s.objects, items[j])
      invariant wf ==> forall j :: 0 <= j < i ==> OnlyMarkersAt(s.objects, items[j])
    {
      ghost var before := s.objects;
      if wf {
        WellFormedAfterRemoval(old(s.objects), before, p);
      }
      r := RmdirItem(s, p, items[i], fuel);
      RemovedTrans(old(s.objects), before, s.objects, p);
      if r.Err? {
        return;
      }
      StillGone(old(s.objects), before, s.objects, p, items, i);
      if wf {
        StillCleared(before, s.objects, p, items, i);
      }
    }
  }

  lemma WellFormedAfterRemoval(a: Objects, b: Objects, p: Path)
    requires Removed(a, b, p) && WellFormedUnder(a, p)
    ensures WellFormedUnder(b, p)
  {
    WellFormedShrinks(a, b, p);
  }

  /** An object at `q` that was no directory in `a` is gone from `b`. */
  predicate FileGone(a: Objects, b: Objects, q: Path)
  {
    |q.segs| >= 2 && !HasContentsIn(a, q) ==> !(q.segs[0] in b && KeyOf(q) in b[q.segs[0]])
  }

  /** A removal keeps gone objects gone; with item `i` gone as well, those of the first `i + 1` items are. */
  lemma StillGone(a: Objects, b: Objects, m: Objects, p: Path, items: seq<Path>, i: nat)
    requires i < |items| && Removed(a, b, p) && Removed(b, m, p)
    requires forall j :: 0 <= j < i ==> FileGone(a, b, items[j])
    requires FileGone(b, m, items[i])
    ensures forall j :: 0 <= j < i + 1 ==> FileGone(a, m, items[j])
  {
  }

  /** A removal keeps the items before `i` cleared; with item `i` cleared, the first `i + 1` are. */
  lemma StillCleared(a: Objects, b: Objects, p: Path, items: seq<Path>, i: nat)
    requires i < |items| && Removed(a, b, p)
    requires forall j :: 0 <= j < i ==> OnlyMarkersAt(a, items[j])
    requires OnlyMarkersAt(b, items[i])
    ensures forall j :: 0 <= j < i + 1 ==> OnlyMarkersAt(b, items[j])
  {
  }

  /** One step of rmdir's loop: `q` is removed as a directory or deleted as an object. */
  method RmdirItem(s: Store, p: Path, q: Path, fuel: nat) returns (r: Result<()>)
    requires p.absolute && ItemOf(p, q)
    modifies s
    decreases fuel, 0
    ensures Removed(old(s.objects), s.objects, p)
    ensures r.Err? ==> r.error == ClientError || r.error == RecursionLimit
    ensures r.Ok? ==> FileGone(old(s.objects), s.objects, q)
    ensures r.Ok? && old(WellFormedUnder(s.objects, p)) ==> OnlyMarkersAt(s.objects, q)
    ensures s.meta == old(s.meta)
  {
    ItemWithin(p, q);
    ghost var wf := WellFormedUnder(s.objects, p);
    if wf {
      WellFormedItem(s.objects, p, q);
    }
    if IsDir(s, q) == Ok(true) {
      if fuel == 0 {
        return Err(RecursionLimit);
      }
      ghost var before := s.objects;
      if wf && |q.segs| >= 2 {
        var k :| k in before[q.segs[0]] && Under(q) <= k;
        DirIsNoFile(before, q, k);
      }
      r := Rmdir(s, q, fuel - 1);
      RemovedWiden(old(s.objects), s.objects, q, p);
      if r.Ok? && wf {
        OnlyMarkersAtDir(before, s.objects, q);
      }
    } else {
      AddressOrRoot(q);
      var o := FromPath(q).value;
      r := s.DeleteObject(o.container, o.key);
      if r.Ok? {
        ItemKey(p, q);
        RemovedByDelete(old(s.objects), old(s.objects), p, q.segs[0], KeyOf(q));
        OnlyMarkersAtFile(old(s.objects), q);
      }
    }
  }

  // ---------------------------------------------------------------------
  // rename and replace

  /** The path names an object whose last component is the marker name. */
  predicate LastIsKeep(p: Path)
  {
    |p.segs| >= 1 && p.segs[|p.segs| - 1] == Keep
  }

  /**
   * The store after copying the object at `a` to `b` and then deleting `a`:
   * `b` holds `a`'s object, `a` is gone, and nothing else changes. Moving
   * an object onto itself therefore deletes it.
   */
  function Moved(m: Objects, a: Path, b: Path): (r: Objects)
    requires |a.segs| >= 2 && a.segs[0] in m && KeyOf(a) in m[a.segs[0]]
    requires |b.segs| >= 2 && b.segs[0] in m
    ensures r.Keys == m.Keys
    ensures KeyOf(a) !in r[a.segs[0]]
    ensures (a.segs[0], KeyOf(a)) != (b.segs[0], KeyOf(b)) ==>
      KeyOf(b) in r[b.segs[0]] && r[b.segs[0]][KeyOf(b)] == m[a.segs[0]][KeyOf(a)]
    ensures forall c, k :: (c, k) != (a.segs[0], KeyOf(a)) && (c, k) != (b.segs[0], KeyOf(b)) ==> Same(m, r, c, k)
  {
    var copied := m[b.segs[0] := m[b.segs[0]][KeyOf(b) := m[a.segs[0]][KeyOf(a)]]];
    copied[a.segs[0] := copied[a.segs[0]] - {KeyOf(a)}]
  }

  /**
   * `_SwiftAccessor.rename`: a directory has every item iterdir yields
   * renamed to the same name under the target and is then removed with
   * rmdir; anything else is copied to the target and unlinked. A relative
   * target is placed in the source's container.
   */
  method Rename(s: Store, src: Path, target: Path, fuel: nat) returns (r: Result<()>)
    modifies s
    decreases fuel, 3
    ensures !src.absolute ==> r == Err(InvalidPath) && s.objects == old(s.objects)
    ensures src.absolute ==> Kept(old(s.objects), s.objects, src, Target(src, target))
    ensures src.absolute && old(IsDir(s, src)) != Ok(true) ==>
      var t := Target(src, target);
      (r.Ok? <==> old(FileAt(s, src)) && |t.segs| >= 2 && t.segs[0] in old(s.objects)) &&
      (r.Err? ==> r.error == ClientError && s.objects == old(s.objects)) &&
      (r.Ok? ==> s.objects == Moved(old(s.objects), src, t))
    ensures (src.absolute &&
             (old(IsDir(s, src)) == Ok(true) || |src.segs| <= 1 ||
              (!LastIsKeep(src) && !LastIsKeep(Target(src, target))))) ==>
      MarkersUnchanged(old(s.objects), s.objects)
    ensures src.absolute && |src.segs| >= 2 && old(IsDir(s, src)) == Ok(true) && old(FileAt(s, MarkerOf(src))) ==>
      IsDir(s, src) == Ok(true)
    ensures src.absolute && r.Ok? && old(IsDir(s, src)) == Ok(true) && old(MoveFits(s.objects, src, Target(src, target))) ==>
      Relocated(old(s.objects), s.objects, src, Target(src, target)) && NoneAdded(old(s.objects), s.objects, src) &&
      KeptUnder(old(s.objects), s.objects, Target(src, target), src, Target(src, target))
    ensures src.absolute && r.Ok? && old(IsDir(s, src)) == Ok(true) && old(MoveFits(s.objects, src, Target(src, target))) &&
            old(NoMarkersInside(s.objects, src)) ==>
              Exists(s, src) == Ok(false)
    ensures src.absolute && r.Err? ==> r.error == ClientError || r.error == RecursionLimit
    ensures s.meta == old(s.meta)
  {
    if !src.absolute {
      return Err(InvalidPath);
    }
    var t := Target(src, target);
    assert t.absolute;
    if IsDir(s, src) == Ok(true) {
      r := RenameDir(s, src, t, fuel);
    } else {
      r := RenameFile(s, src, t);
    }
  }

  /** The directory branch of rename: each item is renamed under the target, then the source is removed. */
  method RenameDir(s: Store, src: Path, t: Path, fuel: nat) returns (r: Result<()>)
    requires src.absolute && t.absolute && IsDir(s, src) == Ok(true)
    modifies s
    decreases fuel, 2
    ensures Kept(old(s.objects), s.objects, src, t)
    ensures MarkersUnchanged(old(s.objects), s.objects)
    ensures |src.segs| >= 2 && old(FileAt(s, MarkerOf(src))) ==> IsDir(s, src) == Ok(true)
    ensures r.Ok? && old(MoveFits(s.objects, src, t)) ==>
      Relocated(old(s.objects), s.objects, src, t) && NoneAdded(old(s.objects), s.objects, src) &&
      KeptUnder(old(s.objects), s.objects, t, src, t)
    ensures r.Ok? && old(MoveFits(s.objects, src, t)) && old(NoMarkersInside(s.objects, src)) ==> Exists(s, src) == Ok(false)
    ensures r.Err? ==> r.error == ClientError || r.error == RecursionLimit
    ensures s.meta == old(s.meta)
  {
    ghost var m0 := s.objects;
    ghost var had := |src.segs| >= 1 && HasContentsIn(m0, src);
    var items := IterDir(s, src, false);
    if items.Err? {
      // a directory's container exists, so the listing succeeds
      assert false;
    }
    ItemShapes(s, src, items.value);
    ghost var fits := MoveFits(m0, src, t);
    if fits {
      WellFormedListing(s, src);
      ItemsNotSelf(s, src, items.value);
      Covered(s, m0, src, items.value);
    }
    r := RenameItems(s, src, t, items.value, fuel);
    if r.Err? {
      MarkerStays(old(s.objects), s, src);
      return;
    }
    if fuel == 0 {
      MarkerStays(old(s.objects), s, src);
      return Err(RecursionLimit);
    }
    ghost var before := s.objects;
    if fits {
      WellFormedShrinks(m0, before, src);
    }
    r := Rmdir(s, src, fuel - 1);
    RemovedKept(before, s.objects, src, t);
    KeptTrans(old(s.objects), before, s.objects, src, t);
    MarkersTrans(old(s.objects), before, s.objects);
    MarkerStays(old(s.objects), s, src);
    if fits && r.Ok? {
      RelocatedAssemble(m0, before, s.objects, src, t, items.value);
      KeptUnderRemoved(m0, before, s.objects, src, t);
      assert NoneAdded(m0, s.objects, src);
      if NoMarkersInside(m0, src) {
        assert had;
        GoneWhenCleared(m0, s, src);
      }
    }
  }

  /** Rename's loop: every item, in order, is renamed under the target; the first failure stops it. */
  method RenameItems(s: Store, src: Path, t: Path, items: seq<Path>, fuel: nat) returns (r: Result<()>)
    requires src.absolute && t.absolute && forall q :: q in items ==> ItemOf(src, q)
    modifies s
    decreases fuel, 1
    ensures Kept(old(s.objects), s.objects, src, t)
    ensures MarkersUnchanged(old(s.objects), s.objects)
    ensures r.Err? ==> r.error == ClientError || r.error == RecursionLimit
    ensures r.Ok? && old(MoveFits(s.objects, src, t)) && Distinct(items) && (forall j :: 0 <= j < |items| ==> items[j] != src) ==>
      (forall j :: 0 <= j < |items| ==> MovedFrom(old(s.objects), s.objects, items[j], src, t)) &&
      NoneAdded(old(s.objects), s.objects, src) && KeptUnder(old(s.objects), s.objects, t, src, t)
    ensures s.meta == old(s.meta)
  {
    r := Ok(());
    ghost var fits := MoveFits(s.objects, src, t) && Distinct(items) && forall j :: 0 <= j < |items| ==> items[j] != src;
    for i := 0 to |items|
      invariant r.Ok?
      invariant Kept(old(s.objects), s.objects, src, t)
      invariant MarkersUnchanged(old(s.objects), s.objects)
      invariant s.meta == old(s.meta)
      invariant fits ==> forall j :: 0 <= j < i ==> MovedFrom(old(s.objects), s.objects, items[j], src, t)
      invariant fits ==> forall j :: i <= j < |items| ==> Untouched(old(s.objects), s.objects, items[j])
      invariant fits ==> NoneAdded(old(s.objects), s.objects, src)
      invariant fits ==> KeptUnder(old(s.objects), s.objects, t, src, t)
    {
      ghost var before := s.objects;
      assert items[i] in items;
      if fits {
        WellFormedItem(old(s.objects), src, items[i]);
        WellFormedSame(old(s.objects), before, items[i]);
      }
      r := RenameItem(s, src, t, items[i], fuel);
      KeptTrans(old(s.objects), before, s.objects, src, t);
      MarkersTrans(old(s.objects), before, s.objects);
      if r.Err? {
        return;
      }
      if fits {
        assert forall j :: 0 <= j < |items| ==> items[j] in items;
        RenameStep(old(s.objects), before, s.objects, src, t, items, i);
        TargetStep(old(s.objects), before, s.objects, src, t, items[i].segs[|src.segs|]);
      }
    }
  }

  /** The object branch of rename: a server-side copy to the target, then an unlink of the source. */
  method RenameFile(s: Store, src: Path, t: Path) returns (r: Result<()>)
    requires src.absolute && t.absolute
    modifies s
    ensures r.Ok? <==> old(FileAt(s, src)) && |t.segs| >= 2 && t.segs[0] in old(s.objects)
    ensures r.Err? ==> r.error == ClientError && s.objects == old(s.objects)
    ensures r.Ok? ==> s.objects == Moved(old(s.objects), src, t)
    ensures Kept(old(s.objects), s.objects, src, t)
    ensures (|src.segs| <= 1 || (!LastIsKeep(src) && !LastIsKeep(t))) ==> MarkersUnchanged(old(s.objects), s.objects)
    ensures s.meta == old(s.meta)
  {
    AddressOrRoot(src);
    DestinationOfPath(t);
    var o := FromPath(src).value;
    r := s.CopyObject(o.container, o.key, Str(t));
    if r.Err? {
      return;
    }
    r := Unlink(s, src, false);
    MovedKept(old(s.objects), src, t);
  }

  /** One step of rename's loop: the item is renamed to its name under the target. */
  method RenameItem(s: Store, src: Path, t: Path, q: Path, fuel: nat) returns (r: Result<()>)
    requires src.absolute && t.absolute && ItemOf(src, q)
    modifies s
    decreases fuel, 0
    ensures Kept(old(s.objects), s.objects, src, t)
    ensures Kept(old(s.objects), s.objects, q, SubOf(src, t, q))
    ensures MarkersUnchanged(old(s.objects), s.objects)
    ensures r.Err? ==> r.error == ClientError || r.error == RecursionLimit
    ensures r.Ok? && q != src && |src.segs| >= 1 && |t.segs| >= 1 && Apart(src, t) && old(WellFormedUnder(s.objects, q)) ==>
      MovedFrom(old(s.objects), s.objects, q, src, t) && NoneAdded(old(s.objects), s.objects, q) &&
      KeptUnder(old(s.objects), s.objects, SubOf(src, t, q), src, t)
    ensures s.meta == old(s.meta)
  {
    var sub := JoinPath(t, Path(false, q.segs[|src.segs|..]));
    if fuel == 0 {
      return Err(RecursionLimit);
    }
    ItemWithin(src, q);
    ghost var m0 := s.objects;
    ghost var dir := IsDir(s, q) == Ok(true);
    ghost var n: Segment := "a";
    if q == src {
      assert sub == t;
    } else {
      n := q.segs[|src.segs|];
      assert sub == Child(t, n);
      ChildWithin(t, n);
    }
    ghost var fits := q != src && |src.segs| >= 1 && |t.segs| >= 1 && Apart(src, t) && WellFormedUnder(m0, q);
    if fits {
      ApartChildren(src, t, n);
    }
    r := Rename(s, q, sub, fuel - 1);
    KeptWiden(old(s.objects), s.objects, q, sub, src, t);
    if fits && r.Ok? {
      ItemRenamed(m0, s.objects, src, t, n, dir);
    }
  }

  /** What renaming the item `src / n` to `t / n` did, as a directory or as an object, in terms of the whole rename. */
  lemma ItemRenamed(a: Objects, b: Objects, src: Path, t: Path, n: Segment, dir: bool)
    requires |src.segs| >= 1 && |t.segs| >= 1 && Apart(src, t) && WellFormedUnder(a, Child(src, n)) && n != Keep
    requires dir ==>
      (HasContentsIn(a, Child(src, n)) &&
       Relocated(a, b, Child(src, n), Child(t, n)) && NoneAdded(a, b, Child(src, n)) &&
       KeptUnder(a, b, Child(t, n), Child(src, n), Child(t, n)))
    requires !dir ==>
      (!HasContentsIn(a, Child(src, n)) &&
       src.segs[0] in a && KeyOf(Child(src, n)) in a[src.segs[0]] && t.segs[0] in a &&
       b == Moved(a, Child(src, n), Child(t, n)))
    ensures MovedFrom(a, b, Child(src, n), src, t) && NoneAdded(a, b, Child(src, n))
    ensures KeptUnder(a, b, Child(t, n), src, t)
  {
    ApartChildren(src, t, n);
    if dir {
      ItemMovedDir(a, b, src, t, n);
      ItemKeptDir(a, b, src, t, n);
    } else {
      ItemMovedFile(a, src, t, n);
      MovedNoneAdded(a, Child(src, n), Child(t, n));
      ItemKeptFile(a, src, t, n);
    }
  }

  // ---------------------------------------------------------------------
  // Where a directory rename puts things

  /** The source and the target do not overlap: nothing lies at or inside both. */
  ghost predicate Apart(src: Path, t: Path)
  {
    forall c, k :: AtOrInside(src, c, k) ==> !AtOrInside(t, c, k)
  }

  /**
   * The conditions under which a directory rename is stated in full: the
   * source and the target lie below the root, do not overlap, and the
   * keys inside the source are well formed.
   */
  ghost predicate MoveFits(m: Objects, src: Path, t: Path)
  {
    |src.segs| >= 1 && |t.segs| >= 1 && WellFormedUnder(m, src) && Apart(src, t)
  }

  /** Where rename puts the key `k` found inside `src`: the same rest after `t`'s prefix. */
  function Dst(src: Path, t: Path, k: string): string
  {
    if |src.segs| >= 1 && |t.segs| >= 1 && Under(src) <= k then Under(t) + k[|Under(src)|..] else k
  }

  /** `b` holds the object `o` under `key` in `t`'s container. */
  predicate HoldsAt(b: Objects, t: Path, key: string, o: Obj)
  {
    |t.segs| >= 1 && t.segs[0] in b && key in b[t.segs[0]] && b[t.segs[0]][key] == o
  }

  /** Every non-marker object inside `src` in `a` has left its key in `b` and sits at its place under `t`. */
  predicate Relocated(a: Objects, b: Objects, src: Path, t: Path)
  {
    forall c, k :: c in a && k in a[c] && Inside(src, c, k) && !IsMarkerKey(k) ==>
      !(c in b && k in b[c]) && HoldsAt(b, t, Dst(src, t, k), a[c][k])
  }

  /** The same, for the objects at or inside the item `q` of `src`. */
  predicate MovedFrom(a: Objects, b: Objects, q: Path, src: Path, t: Path)
  {
    forall c, k :: c in a && k in a[c] && AtOrInside(q, c, k) && !IsMarkerKey(k) ==>
      !(c in b && k in b[c]) && HoldsAt(b, t, Dst(src, t, k), a[c][k])
  }

  /** Nothing at or inside `q` differs between `a` and `b`. */
  ghost predicate Untouched(a: Objects, b: Objects, q: Path)
  {
    forall c, k :: AtOrInside(q, c, k) ==> Same(a, b, c, k)
  }

  /** The path rename gives an item `q` of `src` under the target `t`. */
  function SubOf(src: Path, t: Path, q: Path): Path
    requires |q.segs| >= |src.segs|
  {
    JoinPath(t, Path(false, q.segs[|src.segs|..]))
  }

  /** A key at or inside `p / n` has `n` as the component after `p`'s prefix. */
  lemma NextOfChild(p: Path, n: Segment, c: string, k: string)
    requires |p.segs| >= 1 && AtOrInside(Child(p, n), c, k)
    ensures c == p.segs[0] && Under(p) <= k && NextSegment(p, k) == n
    ensures k == Under(p) + n || Under(p) + n + [Sep] <= k
  {
    var u := Under(p);
    ChildKey(p, n);
    if Inside(Child(p, n), c, k) {
      var x := k[|u + n + [Sep]|..];
      assert k == u + n + [Sep] + x;
      assert k[|u|..] == n + ([Sep] + x);
      TakeUntilPrefix(n, [Sep] + x, {Sep});
    } else {
      assert k[|u|..] == n;
      TakeUntilAll(n, {Sep});
    }
  }

  /** Children with different names share nothing. */
  lemma ChildrenApart(p: Path, n1: Segment, n2: Segment, c: string, k: string)
    requires n1 != n2 && AtOrInside(Child(p, n1), c, k)
    ensures !AtOrInside(Child(p, n2), c, k)
  {
    if |p.segs| >= 1 {
      NextOfChild(p, n1, c, k);
      if AtOrInside(Child(p, n2), c, k) {
        NextOfChild(p, n2, c, k);
      }
    } else {
      assert Child(p, n1).segs == [n1] && Child(p, n2).segs == [n2];
    }
  }

  /** Replacing the prefix `u` of a key by `v` keeps what follows `u + n + "/"`. */
  lemma SwapDeeper(u: string, v: string, n: string, k: string)
    requires u + n + [Sep] <= k
    ensures u <= k
    ensures v + k[|u|..] == (v + n + [Sep]) + k[|u + n + [Sep]|..]
  {
    var x := k[|u + n + [Sep]|..];
    assert k == u + n + [Sep] + x;
    assert k[|u|..] == n + [Sep] + x;
  }

  /** A key at or inside `src / n` is placed at or inside `t / n`, inside `t`. */
  lemma DstOfChild(src: Path, t: Path, n: Segment, k: string)
    requires |src.segs| >= 1 && |t.segs| >= 1 && AtOrInside(Child(src, n), src.segs[0], k)
    ensures Under(src) <= k && Inside(t, t.segs[0], Dst(src, t, k))
    ensures AtOrInside(Child(t, n), t.segs[0], Dst(src, t, k))
    ensures Inside(Child(src, n), src.segs[0], k) ==> Dst(Child(src, n), Child(t, n), k) == Dst(src, t, k)
    ensures !Inside(Child(src, n), src.segs[0], k) ==> k == KeyOf(Child(src, n)) && Dst(src, t, k) == KeyOf(Child(t, n))
  {
    NextOfChild(src, n, src.segs[0], k);
    ChildKey(src, n);
    ChildKey(t, n);
    var u, v := Under(src), Under(t);
    assert Dst(src, t, k) == v + k[|u|..];
    if Inside(Child(src, n), src.segs[0], k) {
      SwapDeeper(u, v, n, k);
    } else {
      assert k[|u|..] == n;
    }
  }

  /** Items of non-overlapping directories with the same name do not overlap either. */
  lemma ApartChildren(src: Path, t: Path, n: Segment)
    requires Apart(src, t)
    ensures Apart(Child(src, n), Child(t, n))
  {
    ChildWithin(src, n);
    ChildWithin(t, n);
    forall c, k | AtOrInside(Child(src, n), c, k) ensures !AtOrInside(Child(t, n), c, k) {
      assert AtOrInside(src, c, k);
    }
  }

  /** Well-formedness at `q` depends only on what lies at or inside `q`. */
  lemma WellFormedSame(a: Objects, b: Objects, q: Path)
    requires WellFormedUnder(a, q) && Untouched(a, b, q)
    ensures WellFormedUnder(b, q)
  {
    forall c, k, k2 | c in b && k in b[c] && AtOrInside(q, c, k) && k2 in b[c] ensures !(k + [Sep] <= k2) {
      assert Same(a, b, c, k);
      LongerUntouched(a, b, q, c, k, k2);
    }
  }

  /** A key below an untouched key of `q` is untouched too. */
  lemma LongerUntouched(a: Objects, b: Objects, q: Path, c: string, k: string, k2: string)
    requires Untouched(a, b, q) && c in b && k2 in b[c] && AtOrInside(q, c, k)
    ensures k + [Sep] <= k2 ==> c in a && k2 in a[c]
  {
    if k + [Sep] <= k2 {
      LongerInside(q, c, k, k2);
      assert Same(a, b, c, k2);
    }
  }

  /** A directory item that a rename relocated has had everything at or inside it moved. */
  lemma ItemMovedDir(a: Objects, b: Objects, src: Path, t: Path, n: Segment)
    requires |src.segs| >= 1 && |t.segs| >= 1
    requires Relocated(a, b, Child(src, n), Child(t, n))
    requires WellFormedUnder(a, Child(src, n)) && HasContentsIn(a, Child(src, n))
    ensures MovedFrom(a, b, Child(src, n), src, t)
  {
    var q := Child(src, n);
    var w :| w in a[q.segs[0]] && Under(q) <= w;
    DirIsNoFile(a, q, w);
    forall c, k | c in a && k in a[c] && AtOrInside(q, c, k) && !IsMarkerKey(k)
      ensures !(c in b && k in b[c]) && HoldsAt(b, t, Dst(src, t, k), a[c][k])
    {
      DstOfChild(src, t, n, k);
    }
  }

  /** An object item that a rename moved has been moved to its place under the target. */
  lemma ItemMovedFile(a: Objects, src: Path, t: Path, n: Segment)
    requires |src.segs| >= 1 && |t.segs| >= 1 && Apart(src, t)
    requires src.segs[0] in a && KeyOf(Child(src, n)) in a[src.segs[0]] && t.segs[0] in a
    requires !HasContentsIn(a, Child(src, n))
    ensures MovedFrom(a, Moved(a, Child(src, n), Child(t, n)), Child(src, n), src, t)
  {
    var q, u := Child(src, n), Child(t, n);
    var b := Moved(a, q, u);
    ApartChildren(src, t, n);
    assert AtOrInside(q, q.segs[0], KeyOf(q));
    assert AtOrInside(u, u.segs[0], KeyOf(u));
    forall c, k | c in a && k in a[c] && AtOrInside(q, c, k) && !IsMarkerKey(k)
      ensures !(c in b && k in b[c]) && HoldsAt(b, t, Dst(src, t, k), a[c][k])
    {
      DstOfChild(src, t, n, k);
    }
  }

  /** Moving an object to a target apart from it adds nothing at or inside the source. */
  lemma MovedNoneAdded(m: Objects, a: Path, b: Path)
    requires |a.segs| >= 2 && a.segs[0] in m && KeyOf(a) in m[a.segs[0]]
    requires |b.segs| >= 2 && b.segs[0] in m
    requires Apart(a, b)
    ensures NoneAdded(m, Moved(m, a, b), a)
  {
    assert AtOrInside(b, b.segs[0], KeyOf(b));
  }

  /** A step that adds nothing at or inside its item, and changes only the item and its target, adds nothing inside the source. */
  lemma NoneAddedStep(a: Objects, b: Objects, m: Objects, src: Path, t: Path, q: Path, u: Path)
    requires NoneAdded(a, b, src) && NoneAdded(b, m, q) && Kept(b, m, q, u) && Apart(src, t)
    requires forall c, k :: AtOrInside(q, c, k) ==> Inside(src, c, k)
    requires forall c, k :: AtOrInside(u, c, k) ==> Inside(t, c, k)
    ensures NoneAdded(a, m, src)
  {
    forall c, k | c in m && k in m[c] && AtOrInside(src, c, k) ensures c in a && k in a[c] {
      if !AtOrInside(q, c, k) {
        assert !AtOrInside(t, c, k);
        assert Same(b, m, c, k);
      }
    }
  }

  /** One object of an earlier item stays gone from its key and in place at its destination. */
  lemma MovedFromKeptOne(b: Objects, m: Objects, src: Path, t: Path, nj: Segment, ni: Segment, c: string, k: string, o: Obj)
    requires |src.segs| >= 1 && |t.segs| >= 1 && Apart(src, t) && nj != ni
    requires AtOrInside(Child(src, nj), c, k)
    requires !(c in b && k in b[c]) && HoldsAt(b, t, Dst(src, t, k), o)
    requires Kept(b, m, Child(src, ni), Child(t, ni))
    ensures !(c in m && k in m[c]) && HoldsAt(m, t, Dst(src, t, k), o)
  {
    NextOfChild(src, nj, c, k);
    DstOfChild(src, t, nj, k);
    var d := Dst(src, t, k);
    ChildWithin(src, nj);
    ChildWithin(t, ni);
    ChildrenApart(src, nj, ni, c, k);
    assert AtOrInside(src, c, k);
    assert !AtOrInside(Child(t, ni), c, k);
    ChildrenApart(t, nj, ni, t.segs[0], d);
    ChildWithin(src, ni);
    assert AtOrInside(t, t.segs[0], d);
    assert !AtOrInside(Child(src, ni), t.segs[0], d);
  }

  /** A later step on another item keeps an earlier item's objects where they were moved. */
  lemma MovedFromKept(a: Objects, b: Objects, m: Objects, src: Path, t: Path, nj: Segment, ni: Segment)
    requires |src.segs| >= 1 && |t.segs| >= 1 && Apart(src, t) && nj != ni
    requires MovedFrom(a, b, Child(src, nj), src, t)
    requires Kept(b, m, Child(src, ni), Child(t, ni))
    ensures MovedFrom(a, m, Child(src, nj), src, t)
  {
    forall c, k | c in a && k in a[c] && AtOrInside(Child(src, nj), c, k) && !IsMarkerKey(k)
      ensures !(c in m && k in m[c]) && HoldsAt(m, t, Dst(src, t, k), a[c][k])
    {
      MovedFromKeptOne(b, m, src, t, nj, ni, c, k, a[c][k]);
    }
  }

  /** What an item's step moved, stated from a store in which the item was as it is before the step. */
  lemma MovedFromUntouched(a: Objects, b: Objects, m: Objects, q: Path, src: Path, t: Path)
    requires Untouched(a, b, q) && MovedFrom(b, m, q, src, t)
    ensures MovedFrom(a, m, q, src, t)
  {
    forall c, k | c in a && k in a[c] && AtOrInside(q, c, k) && !IsMarkerKey(k)
      ensures !(c in m && k in m[c]) && HoldsAt(m, t, Dst(src, t, k), a[c][k])
    {
      assert Same(a, b, c, k);
    }
  }

  /** A step on another item leaves an item still to come untouched. */
  lemma UntouchedKept(a: Objects, b: Objects, m: Objects, src: Path, t: Path, nj: Segment, ni: Segment)
    requires Apart(src, t) && nj != ni
    requires Untouched(a, b, Child(src, nj)) && Kept(b, m, Child(src, ni), Child(t, ni))
    ensures Untouched(a, m, Child(src, nj))
  {
    ChildWithin(src, nj);
    ChildWithin(t, ni);
    forall c, k | AtOrInside(Child(src, nj), c, k) ensures Same(a, m, c, k) {
      ChildrenApart(src, nj, ni, c, k);
      assert AtOrInside(src, c, k);
      assert !AtOrInside(Child(t, ni), c, k);
    }
  }

  /**
   * `(c, k)`, at or inside the target `t`, is where rename puts an object of
   * `src` found in `a`: a non-marker key of `src` that `Dst` maps to `k`.
   */
  predicate MovedHere(a: Objects, src: Path, t: Path, c: string, k: string)
  {
    |src.segs| >= 1 && |t.segs| >= 1 && c == t.segs[0] && Under(t) <= k &&
    src.segs[0] in a && Dst(t, src, k) in a[src.segs[0]] && !IsMarkerKey(Dst(t, src, k))
  }

  /** Nothing at or inside `u` differs between `a` and `b`, except where rename puts an object of `src`. */
  ghost predicate KeptUnder(a: Objects, b: Objects, u: Path, src: Path, t: Path)
  {
    forall c, k :: AtOrInside(u, c, k) && !MovedHere(a, src, t, c, k) ==> Same(a, b, c, k)
  }

  /** The final rmdir inside the source leaves the target as it was. */
  lemma KeptUnderRemoved(a: Objects, b: Objects, m: Objects, src: Path, t: Path)
    requires KeptUnder(a, b, t, src, t) && Removed(b, m, src) && Apart(src, t)
    ensures KeptUnder(a, m, t, src, t)
  {
    forall c, k | AtOrInside(t, c, k) && !MovedHere(a, src, t, c, k) ensures Same(a, m, c, k) {
      assert !AtOrInside(src, c, k);
    }
  }

  /** Where rename puts things below `t / n` depends only on what lies at or inside `src / n`. */
  lemma MovedHereOfChild(a: Objects, b: Objects, src: Path, t: Path, n: Segment, c: string, k: string)
    requires |src.segs| >= 1 && |t.segs| >= 1 && AtOrInside(Child(t, n), c, k)
    requires Untouched(a, b, Child(src, n))
    ensures MovedHere(a, src, t, c, k) == MovedHere(b, src, t, c, k)
  {
    NextOfChild(t, n, c, k);
    DstOfChild(t, src, n, k);
    assert Same(a, b, src.segs[0], Dst(t, src, k));
  }

  /** A step of rename's loop changes the target only where it puts objects of the source. */
  lemma TargetStep(a: Objects, b: Objects, m: Objects, src: Path, t: Path, n: Segment)
    requires |src.segs| >= 1 && |t.segs| >= 1 && Apart(src, t)
    requires KeptUnder(a, b, t, src, t) && Untouched(a, b, Child(src, n))
    requires Kept(b, m, Child(src, n), Child(t, n)) && KeptUnder(b, m, Child(t, n), src, t)
    ensures KeptUnder(a, m, t, src, t)
  {
    ChildWithin(src, n);
    forall c, k | AtOrInside(t, c, k) && !MovedHere(a, src, t, c, k) ensures Same(a, m, c, k) {
      assert Same(a, b, c, k);
      assert !AtOrInside(src, c, k);
      if AtOrInside(Child(t, n), c, k) {
        MovedHereOfChild(a, b, src, t, n, c, k);
      }
    }
  }

  /** A directory item's own rename keeps its target except where it puts objects, stated for the whole rename. */
  lemma ItemKeptDir(a: Objects, b: Objects, src: Path, t: Path, n: Segment)
    requires |src.segs| >= 1 && |t.segs| >= 1
    requires KeptUnder(a, b, Child(t, n), Child(src, n), Child(t, n))
    ensures KeptUnder(a, b, Child(t, n), src, t)
  {
    ChildKey(t, n);
    forall c, k | AtOrInside(Child(t, n), c, k) && !MovedHere(a, src, t, c, k) ensures Same(a, b, c, k) {
      if Inside(Child(t, n), c, k) {
        DstOfChild(t, src, n, k);
      }
      assert !MovedHere(a, Child(src, n), Child(t, n), c, k);
    }
  }

  /** Moving the object item `src / n` to `t / n` changes nothing else at or inside `t / n`. */
  lemma ItemKeptFile(a: Objects, src: Path, t: Path, n: Segment)
    requires |src.segs| >= 1 && |t.segs| >= 1 && Apart(src, t) && n != Keep
    requires src.segs[0] in a && KeyOf(Child(src, n)) in a[src.segs[0]] && t.segs[0] in a
    ensures KeptUnder(a, Moved(a, Child(src, n), Child(t, n)), Child(t, n), src, t)
  {
    var q, u := Child(src, n), Child(t, n);
    ApartChildren(src, t, n);
    assert AtOrInside(q, q.segs[0], KeyOf(q));
    assert AtOrInside(u, u.segs[0], KeyOf(u));
    ChildKey(t, n);
    DstOfChild(t, src, n, KeyOf(u));
    BasenameOfKey(q);
    assert MovedHere(a, src, t, u.segs[0], KeyOf(u));
  }

  /** Renaming `/c/s` to `/c/t` keeps an object already in the target that no source object moves onto. */
  lemma TargetObjectSurvives(a: Objects, b: Objects, o: Obj)
    requires a == map["c" := map["s/x" := o, "t/y" := o]]
    requires KeptUnder(a, b, Path(true, ["c", "t"]), Path(true, ["c", "s"]), Path(true, ["c", "t"]))
    ensures "c" in b && "t/y" in b["c"] && b["c"]["t/y"] == o
  {
    var src, t := Path(true, ["c", "s"]), Path(true, ["c", "t"]);
    assert src.segs[1..] == ["s"] && t.segs[1..] == ["t"];
    assert Under(t) == "t/" && Under(src) == "s/";
    assert "t/y"[|Under(t)|..] == "y";
    assert Dst(t, src, "t/y") == "s/y";
    assert AtOrInside(t, "c", "t/y");
    assert Same(a, b, "c", "t/y");
  }

  /** Below a directory whose listed names are proper components, iterdir never yields the directory itself. */
  lemma ItemsNotSelf(s: Store, p: Path, items: seq<Path>)
    requires p.absolute && |p.segs| >= 1 && p.segs[0] in s.objects && ProperNames(s, p, false)
    requires forall q :: q in items <==>
      exists n :: n in ListedNames(s, p) && !Skipped(n, false) && q == ChildNamed(p, n)
    ensures forall j :: 0 <= j < |items| ==> items[j] != p
  {
    forall j | 0 <= j < |items| ensures items[j] != p {
      assert items[j] in items;
      var n :| n in ListedNames(s, p) && !Skipped(n, false) && items[j] == ChildNamed(p, n);
    }
  }

  /**
   * One step of rename's loop, seen from before the loop: the items done so
   * far stay moved, the item just renamed is moved, the items still to come
   * are untouched, and nothing has been added inside the source.
   */
  lemma RenameStep(a: Objects, b: Objects, m: Objects, src: Path, t: Path, items: seq<Path>, i: nat)
    requires |src.segs| >= 1 && |t.segs| >= 1 && Apart(src, t) && i < |items| && Distinct(items)
    requires forall j :: 0 <= j < |items| ==> ItemOf(src, items[j]) && items[j] != src
    requires forall j :: 0 <= j < i ==> MovedFrom(a, b, items[j], src, t)
    requires forall j :: i <= j < |items| ==> Untouched(a, b, items[j])
    requires NoneAdded(a, b, src)
    requires ItemOf(src, items[i]) && Kept(b, m, items[i], SubOf(src, t, items[i]))
    requires MovedFrom(b, m, items[i], src, t) && NoneAdded(b, m, items[i])
    ensures forall j :: 0 <= j < i + 1 ==> MovedFrom(a, m, items[j], src, t)
    ensures forall j :: i + 1 <= j < |items| ==> Untouched(a, m, items[j])
    ensures NoneAdded(a, m, src)
  {
    var ni := items[i].segs[|src.segs|];
    assert SubOf(src, t, items[i]) == Child(t, ni);
    StepKeepsMoved(a, b, m, src, t, items, i, ni);
    MovedFromUntouched(a, b, m, items[i], src, t);
    StepKeepsUntouched(a, b, m, src, t, items, i, ni);
    ChildWithin(src, ni);
    ChildWithin(t, ni);
    NoneAddedStep(a, b, m, src, t, items[i], Child(t, ni));
  }

  /** The items renamed before item `i` stay moved through its step. */
  lemma StepKeepsMoved(a: Objects, b: Objects, m: Objects, src: Path, t: Path, items: seq<Path>, i: nat, ni: Segment)
    requires |src.segs| >= 1 && |t.segs| >= 1 && Apart(src, t) && i < |items| && Distinct(items)
    requires forall j :: 0 <= j < |items| ==> ItemOf(src, items[j]) && items[j] != src
    requires items[i] == Child(src, ni)
    requires forall j :: 0 <= j < i ==> MovedFrom(a, b, items[j], src, t)
    requires Kept(b, m, Child(src, ni), Child(t, ni))
    ensures forall j :: 0 <= j < i ==> MovedFrom(a, m, items[j], src, t)
  {
    forall j | 0 <= j < i ensures MovedFrom(a, m, items[j], src, t) {
      MovedFromKept(a, b, m, src, t, items[j].segs[|src.segs|], ni);
    }
  }

  /** The items still to come after item `i` stay untouched through its step. */
  lemma StepKeepsUntouched(a: Objects, b: Objects, m: Objects, src: Path, t: Path, items: seq<Path>, i: nat, ni: Segment)
    requires Apart(src, t) && i < |items| && Distinct(items)
    requires forall j :: 0 <= j < |items| ==> ItemOf(src, items[j]) && items[j] != src
    requires items[i] == Child(src, ni)
    requires forall j :: i < j < |items| ==> Untouched(a, b, items[j])
    requires Kept(b, m, Child(src, ni), Child(t, ni))
    ensures forall j :: i < j < |items| ==> Untouched(a, m, items[j])
  {
    forall j | i < j < |items| ensures Untouched(a, m, items[j]) {
      UntouchedKept(a, b, m, src, t, items[j].segs[|src.segs|], ni);
    }
  }

  /** One object inside the source, moved by its item and outside what rmdir removes, is where rename put it. */
  lemma RelocatedOne(b: Objects, m: Objects, src: Path, t: Path, n: Segment, c: string, k: string, o: Obj)
    requires |src.segs| >= 1 && |t.segs| >= 1 && Apart(src, t)
    requires AtOrInside(Child(src, n), c, k)
    requires !(c in b && k in b[c]) && HoldsAt(b, t, Dst(src, t, k), o)
    requires Removed(b, m, src)
    ensures !(c in m && k in m[c]) && HoldsAt(m, t, Dst(src, t, k), o)
  {
    NextOfChild(src, n, c, k);
    DstOfChild(src, t, n, k);
    assert AtOrInside(t, t.segs[0], Dst(src, t, k));
  }

  /** Every item moved, and the source then removed: the whole source has been relocated. */
  lemma RelocatedAssemble(a: Objects, b: Objects, m: Objects, src: Path, t: Path, items: seq<Path>)
    requires |src.segs| >= 1 && |t.segs| >= 1 && Apart(src, t)
    requires forall q :: q in items ==> ItemOf(src, q)
    requires forall j :: 0 <= j < |items| ==> items[j] != src
    requires forall c, k :: c in a && k in a[c] && Inside(src, c, k) && !IsMarkerKey(k) ==>
      exists j :: 0 <= j < |items| && AtOrInside(items[j], c, k)
    requires forall j :: 0 <= j < |items| ==> MovedFrom(a, b, items[j], src, t)
    requires Removed(b, m, src)
    ensures Relocated(a, m, src, t)
  {
    forall c, k | c in a && k in a[c] && Inside(src, c, k) && !IsMarkerKey(k)
      ensures !(c in m && k in m[c]) && HoldsAt(m, t, Dst(src, t, k), a[c][k])
    {
      var j :| 0 <= j < |items| && AtOrInside(items[j], c, k);
      assert items[j] in items;
      RelocatedOne(b, m, src, t, items[j].segs[|src.segs|], c, k, a[c][k]);
    }
  }

  lemma KeptTrans(a: Objects, b: Objects, c: Objects, src: Path, t: Path)
    requires Kept(a, b, src, t) && Kept(b, c, src, t)
    ensures Kept(a, c, src, t)
  {
  }

  lemma MarkersTrans(a: Objects, b: Objects, m: Objects)
    requires MarkersUnchanged(a, b) && MarkersUnchanged(b, m)
    ensures MarkersUnchanged(a, m)
  {
    forall c, k | IsMarkerKey(k) ensures Same(a, m, c, k) {
      assert Same(a, b, c, k) && Same(b, m, c, k);
    }
  }

  lemma KeptWiden(a: Objects, b: Objects, q: Path, u: Path, src: Path, t: Path)
    requires Kept(a, b, q, u)
    requires forall c, k :: AtOrInside(q, c, k) ==> Inside(src, c, k)
    requires forall c, k :: AtOrInside(u, c, k) ==> AtOrInside(t, c, k)
    ensures Kept(a, b, src, t)
  {
    forall c, k | !AtOrInside(src, c, k) && !AtOrInside(t, c, k) ensures Same(a, b, c, k) {
      assert !AtOrInside(q, c, k) && !AtOrInside(u, c, k);
    }
  }

  /** A removal inside the source keeps everything else and every marker. */
  lemma RemovedKept(a: Objects, b: Objects, src: Path, t: Path)
    requires Removed(a, b, src)
    ensures Kept(a, b, src, t) && MarkersUnchanged(a, b)
  {
  }

  /** Moving one object keeps everything else, and every marker when neither end is one. */
  lemma MovedKept(m: Objects, a: Path, b: Path)
    requires |a.segs| >= 2 && a.segs[0] in m && KeyOf(a) in m[a.segs[0]]
    requires |b.segs| >= 2 && b.segs[0] in m
    ensures Kept(m, Moved(m, a, b), a, b)
    ensures !LastIsKeep(a) && !LastIsKeep(b) ==> MarkersUnchanged(m, Moved(m, a, b))
  {
    var r := Moved(m, a, b);
    forall c, k | !AtOrInside(a, c, k) && !AtOrInside(b, c, k) ensures Same(m, r, c, k) {
      assert (c, k) != (a.segs[0], KeyOf(a)) && (c, k) != (b.segs[0], KeyOf(b));
    }
    if !LastIsKeep(a) && !LastIsKeep(b) {
      BasenameOfKey(a);
      BasenameOfKey(b);
      forall c, k | IsMarkerKey(k) ensures Same(m, r, c, k) {
        assert k != KeyOf(a) && k != KeyOf(b);
      }
    }
  }

  /** A directory whose marker is left in place is still a directory. */
  lemma MarkerStays(before: Objects, s: Store, p: Path)
    requires p.absolute && MarkersUnchanged(before, s.objects)
    ensures |p.segs| >= 2 && p.segs[0] in before && KeyOf(MarkerOf(p)) in before[p.segs[0]] ==> IsDir(s, p) == Ok(true)
  {
    if |p.segs| >= 2 && p.segs[0] in before && KeyOf(MarkerOf(p)) in before[p.segs[0]] {
      MarkerKept(before, s, p);
    }
  }

  lemma MarkerKept(before: Objects, s: Store, p: Path)
    requires p.absolute && |p.segs| >= 2 && MarkersUnchanged(before, s.objects)
    requires p.segs[0] in before && KeyOf(MarkerOf(p)) in before[p.segs[0]]
    ensures IsDir(s, p) == Ok(true)
  {
    BasenameOfKey(MarkerOf(p));
    assert Same(before, s.objects, p.segs[0], KeyOf(MarkerOf(p)));
    MarkerInside(s, p);
  }

  /**
   * `SwiftPath.replace`: a relative path is refused; otherwise the path is
   * renamed, replacing whatever the target holds, and the target is returned
   * as given, the way `SwiftPath.rename` returns it.
   */
  method Replace(s: Store, src: Path, target: Path, fuel: nat) returns (r: Result<Path>)
    modifies s
    ensures !src.absolute ==> r == Err(InvalidPath) && s.objects == old(s.objects)
    ensures r.Ok? ==> r.value == target
    ensures src.absolute ==> Kept(old(s.objects), s.objects, src, Target(src, target))
    ensures src.absolute && old(IsDir(s, src)) != Ok(true) ==>
      var t := Target(src, target);
      (r.Ok? <==> old(FileAt(s, src)) && |t.segs| >= 2 && t.segs[0] in old(s.objects)) &&
      (r.Err? ==> s.objects == old(s.objects)) &&
      (r.Ok? ==> s.objects == Moved(old(s.objects), src, t))
    ensures src.absolute && r.Ok? && old(IsDir(s, src)) == Ok(true) && old(MoveFits(s.objects, src, Target(src, target))) ==>
      Relocated(old(s.objects), s.objects, src, Target(src, target)) && NoneAdded(old(s.objects), s.objects, src) &&
      KeptUnder(old(s.objects), s.objects, Target(src, target), src, Target(src, target))
    ensures src.absolute && r.Ok? && old(IsDir(s, src)) == Ok(true) && old(MoveFits(s.objects, src, Target(src, target))) &&
            old(NoMarkersInside(s.objects, src)) ==>
              Exists(s, src) == Ok(false)
    ensures src.absolute && r.Err? ==> r.error == ClientError || r.error == RecursionLimit
    ensures s.meta == old(s.meta)
  {
    if !src.absolute {
      return Err(InvalidPath);
    }
    var u := Rename(s, src, target, fuel);
    if u.Err? {
      return Err(u.error);
    }
    r := Ok(target);
  }
}
