/**
 * Operations that change the store one object or one container at a time:
 * unlink, link_to, symlink, utime, touch and mkdir, plus the is_symlink
 * probe that reads what symlink writes.
 */
module Mutations {
  import opened Wrappers
  import opened Codec
  import opened Paths
  import opened Store
  import opened Directory

  /** The marker object that stands for an explicitly created directory. */
  function MarkerOf(p: Path): Path
  {
    Child(p, Keep)
  }

  /**
   * Where a rename or link lands: an absolute target as it is, a relative one
   * as "/<source container>/<target>".
   */
  function Target(src: Path, target: Path): Path
    requires src.absolute
  {
    if target.absolute then target
    else Parse([Sep] + FromPath(src).value.container + [Sep] + Str(target))
  }

  /** A relative target is placed in the source's container. */
  lemma RelativeTarget(src: Path, target: Path)
    requires src.absolute && |src.segs| >= 1 && !target.absolute
    ensures Target(src, target) == Path(true, [src.segs[0]] + target.segs)
  {
    AddressOf(src);
    var c := src.segs[0];
    if target.segs == [] {
      ParseUnderContainer(c, ".");
      SplitOnPlain(".");
      assert Clean(["."]) == [] + Clean([]);
    } else {
      ParseUnderContainer(c, Join(target.segs));
      SplitOnJoin(target.segs);
      CleanSegments(target.segs);
    }
  }

  /** The copy destination a path prints as names that path's container and key, when it has a key. */
  lemma DestinationOfPath(q: Path)
    requires q.absolute
    ensures Destination(Str(q)) == if |q.segs| >= 2 then Some((q.segs[0], KeyOf(q))) else None
  {
    var d := Str(q);
    if |q.segs| == 0 {
      assert d[1..] == "";
    } else if |q.segs| == 1 {
      var c := q.segs[0];
      assert d[1..] == c;
      TakeUntilAll(c, {Sep});
    } else {
      var c := q.segs[0];
      var k := KeyOf(q);
      JoinSegmentsNoEdgeSep(q.segs[1..]);
      assert d[1..] == c + ([Sep] + k);
      TakeUntilPrefix(c, [Sep] + k, {Sep});
      assert d[1..][|c| + 1..] == k;
    }
  }

  // ---------------------------------------------------------------------
  // unlink

  /** `_SwiftAccessor.unlink`: deletes exactly the object the path names. */
  method Unlink(s: Store, p: Path, missingOk: bool) returns (r: Result<()>)
    modifies s
    ensures !p.absolute ==> r == Err(InvalidPath) && s.objects == old(s.objects)
    ensures p.absolute && old(FileAt(s, p)) ==>
      r.Ok? && s.objects == old(s.objects)[p.segs[0] := old(s.objects)[p.segs[0]] - {KeyOf(p)}]
    ensures p.absolute && !old(FileAt(s, p)) ==>
      s.objects == old(s.objects) && r == (if missingOk then Ok(()) else Err(NotFound))
    ensures s.meta == old(s.meta)
  {
    if !p.absolute {
      return Err(InvalidPath);
    }
    AddressOrRoot(p);
    var o := FromPath(p).value;
    var d := s.DeleteObject(o.container, o.key);
    if d.Err? && !missingOk {
      return Err(NotFound);
    }
    r := Ok(());
  }

  // ---------------------------------------------------------------------
  // link_to

  /** `_SwiftAccessor.link_to`: a server-side copy of the source object to the link's path. */
  method LinkTo(s: Store, src: Path, linkName: Path) returns (r: Result<()>)
    modifies s
    ensures !src.absolute ==> r == Err(InvalidPath) && s.objects == old(s.objects)
    ensures src.absolute ==>
      var t := Target(src, linkName);
      (r.Ok? <==> old(FileAt(s, src)) && |t.segs| >= 2 && t.segs[0] in old(s.objects)) &&
      (r.Err? ==> r.error == ClientError && s.objects == old(s.objects)) &&
      (r.Ok? ==>
        var c, k := t.segs[0], KeyOf(t);
        var v := old(s.objects)[src.segs[0]][KeyOf(src)];
        s.objects == old(s.objects)[c := old(s.objects)[c][k := v]])
    ensures s.meta == old(s.meta)
  {
    if !src.absolute {
      return Err(InvalidPath);
    }
    var t := Target(src, linkName);
    assert t.absolute;
    AddressOrRoot(src);
    DestinationOfPath(t);
    var o := FromPath(src).value;
    r := s.CopyObject(o.container, o.key, Str(t));
  }

  // ---------------------------------------------------------------------
  // symlink and is_symlink

  /** `SwiftPath.is_symlink`: the object is stored with the symlink content type. */
  function IsSymlink(s: Store, p: Path): (r: Result<bool>)
    reads s
    ensures !p.absolute ==> r == Err(InvalidPath)
    ensures p.absolute ==> (r == Err(NotFound) <==> !FileAt(s, p))
    ensures p.absolute ==> (r == Ok(true) <==> FileAt(s, p) && s.objects[p.segs[0]][KeyOf(p)].contentType == SymlinkType)
  {
    match FromPath(p)
    case Err(e) => Err(e)
    case Ok(o) =>
      AddressOrRoot(p);
      match s.HeadObject(o.container, o.key)
      case Err(_) => Err(NotFound)
      case Ok(h) => Ok(h != map[] && ("content-type" in h && h["content-type"] == SymlinkType))
  }

  /** The headers `symlink` stores on the link object. */
  function SymlinkHeaders(a: Path, account: Option<string>): Headers
  {
    var h := map["X-Symlink-Target" := Str(a)];
    if account.Some? then h["X-Symlink-Target-Account" := account.value] else h
  }

  /**
   * `_SwiftAccessor.symlink(a, b)`: `a` must exist and `b` must not; `b`
   * becomes an empty object of the symlink content type naming `a`.
   */
  method Symlink(s: Store, a: Path, b: Path, account: Option<string>) returns (r: Result<()>)
    modifies s
    ensures !a.absolute ==> r == Err(InvalidPath)
    ensures a.absolute && old(Exists(s, a)) == Ok(false) ==> r == Err(NotFound)
    ensures a.absolute && old(Exists(s, a)) == Ok(true) && !b.absolute ==> r == Err(InvalidPath)
    ensures a.absolute && old(Exists(s, a)) == Ok(true) && old(Exists(s, b)) == Ok(true) ==> r == Err(AlreadyExists)
    ensures a.absolute && old(Exists(s, a)) == Ok(true) && old(Exists(s, b)) == Ok(false) ==>
      (r.Ok? <==> |b.segs| >= 2 && b.segs[0] in old(s.objects)) &&
      (r.Err? ==> r.error == ClientError)
    ensures r.Err? ==> s.objects == old(s.objects)
    ensures r.Ok? ==> s.objects == old(s.objects)[b.segs[0] :=
      old(s.objects)[b.segs[0]][KeyOf(b) := Obj([], SymlinkType, SymlinkHeaders(a, account))]]
    ensures r.Ok? ==> IsSymlink(s, b) == Ok(true) && Exists(s, b) == Ok(true)
    ensures s.meta == old(s.meta)
  {
    var ea := Exists(s, a);
    if ea.Err? {
      return Err(ea.error);
    }
    if !ea.value {
      return Err(NotFound);
    }
    var eb := Exists(s, b);
    if eb.Err? {
      return Err(eb.error);
    }
    if eb.value {
      return Err(AlreadyExists);
    }
    AddressOrRoot(b);
    var dest := FromPath(b).value;
    r := s.PutObject(dest.container, dest.key, [], SymlinkType, SymlinkHeaders(a, account));
  }

  // ---------------------------------------------------------------------
  // utime and touch

  /** `_SwiftAccessor.utime`: an existing path gets a new `x-timestamp`; `now` stands for the clock. */
  method Utime(s: Store, p: Path, now: string) returns (r: Result<()>)
    modifies s
    ensures !p.absolute ==> r == Err(InvalidPath) && s.objects == old(s.objects)
    ensures p.absolute && old(Exists(s, p)) == Ok(false) ==> r == Err(NotFound) && s.objects == old(s.objects)
    ensures p.absolute && old(Exists(s, p)) == Ok(true) ==>
      (r.Ok? <==> old(FileAt(s, p))) &&
      (r.Err? ==> r.error == ClientError && s.objects == old(s.objects)) &&
      (r.Ok? ==>
        var o := old(s.objects)[p.segs[0]][KeyOf(p)];
        s.objects == old(s.objects)[p.segs[0] := old(s.objects)[p.segs[0]][KeyOf(p) :=
          o.(headers := o.headers + map["x-timestamp" := now])]])
    ensures s.meta == old(s.meta)
  {
    var e := Exists(s, p);
    if e.Err? {
      return Err(e.error);
    }
    if !e.value {
      return Err(NotFound);
    }
    AddressOrRoot(p);
    var o := FromPath(p).value;
    r := s.PostObject(o.container, o.key, map["x-timestamp" := now]);
  }

  /**
   * `SwiftPath.touch`: a path that does not exist is written as an empty
   * object; one that exists has its timestamp updated.
   */
  method Touch(s: Store, p: Path, now: string) returns (r: Result<()>)
    modifies s
    ensures !p.absolute ==> r == Err(InvalidPath) && s.objects == old(s.objects)
    ensures p.absolute && old(Exists(s, p)) == Ok(false) ==>
      (r.Ok? <==> |p.segs| >= 2 && p.segs[0] in old(s.objects)) &&
      (r.Err? ==> r.error == ClientError && s.objects == old(s.objects)) &&
      (r.Ok? ==> s.objects == old(s.objects)[p.segs[0] := old(s.objects)[p.segs[0]][KeyOf(p) := Obj([], "", map[])]])
    ensures p.absolute && old(Exists(s, p)) == Ok(true) ==>
      (r.Ok? <==> old(FileAt(s, p))) &&
      (r.Err? ==> r.error == ClientError && s.objects == old(s.objects)) &&
      (r.Ok? ==>
        var o := old(s.objects)[p.segs[0]][KeyOf(p)];
        s.objects == old(s.objects)[p.segs[0] := old(s.objects)[p.segs[0]][KeyOf(p) :=
          o.(headers := o.headers + map["x-timestamp" := now])]])
    ensures r.Ok? ==> FileAt(s, p)
    ensures s.meta == old(s.meta)
  {
    var e := Exists(s, p);
    if e.Err? {
      return Err(e.error);
    }
    if !e.value {
      // write_bytes(b""): the write handle uploads its empty cache
      AddressOrRoot(p);
      var o := FromPath(p).value;
      r := s.PutObject(o.container, o.key, [], "", map[]);
    } else {
      r := Utime(s, p, now);
    }
  }

  // ---------------------------------------------------------------------
  // mkdir

  /**
   * The guards of `SwiftPath.mkdir`. `Ok(true)`: creation goes ahead;
   * `Ok(false)`: a refusal that `exist_ok` silences.
   */
  function MkdirGuard(s: Store, p: Path, parents: bool, existOk: bool): (r: Result<bool>)
    reads s
    ensures !p.absolute ==> r == Err(InvalidPath)
    ensures p == Root ==> r == Err(NoneDereference)
    ensures p.absolute && |p.segs| >= 2 ==>
      r == (if parents then Ok(true) else if existOk then Ok(false) else Err(NotFound))
    ensures p.absolute && |p.segs| == 1 ==>
      r == (if !HasContents(s, p) then Ok(true) else if existOk then Ok(false) else Err(AlreadyExists))
  {
    match Key(p)
    case Err(e) => Err(e)
    case Ok(key) =>
      if key.Some? && !parents then
        if existOk then Ok(false) else Err(NotFound)
      else
        match Container(p).value
        case None => Err(NoneDereference)
        case Some(c) =>
          assert c == Path(true, [p.segs[0]]);
          if Exists(s, c).value && key.None? then
            if existOk then Ok(false) else Err(AlreadyExists)
          else Ok(true)
  }

  /** What touch leaves under `key`: the old object with a new timestamp, or a new empty object. */
  function Touched(keys: map<string, Obj>, key: string, now: string): Obj
  {
    if key in keys then keys[key].(headers := keys[key].headers + map["x-timestamp" := now])
    else Obj([], "", map[])
  }

  /**
   * `_SwiftAccessor.mkdir`: refuses an existing path unless `exist_ok`; a key
   * path gets a `.swiftkeep` marker object, a container path a new container.
   */
  method Mkdir(s: Store, p: Path, existOk: bool, now: string) returns (r: Result<()>)
    modifies s
    ensures !p.absolute ==> r == Err(InvalidPath) && s.objects == old(s.objects)
    ensures p.absolute && !existOk && (old(Exists(s, p)) == Ok(true) || old(Exists(s, MarkerOf(p))) == Ok(true)) ==>
      r == Err(AlreadyExists) && s.objects == old(s.objects)
    ensures p.absolute && |p.segs| <= 1 && r.Ok? ==>
      p.segs != [] && p.segs[0] !in old(s.objects) && s.objects == old(s.objects)[p.segs[0] := map[]]
    ensures p.absolute && |p.segs| <= 1 && r.Err? ==> s.objects == old(s.objects)
    ensures p.absolute && |p.segs| >= 2 && r.Ok? ==> FileAt(s, MarkerOf(p)) && IsDir(s, p) == Ok(true)
    ensures p.absolute && |p.segs| >= 2 && r.Ok? ==>
      p.segs[0] in old(s.objects) &&
      s.objects == old(s.objects)[p.segs[0] := old(s.objects)[p.segs[0]][KeyOf(MarkerOf(p)) :=
        Touched(old(s.objects)[p.segs[0]], KeyOf(MarkerOf(p)), now)]]
    ensures p.absolute && |p.segs| >= 2 && r.Err? ==> s.objects == old(s.objects)
    ensures p.absolute && |p.segs| <= 1 && r.Ok? ==> s.meta == old(s.meta)[p.segs[0] := map[]]
    ensures !(p.absolute && |p.segs| <= 1 && r.Ok?) ==> s.meta == old(s.meta)
  {
    if !p.absolute {
      return Err(InvalidPath);
    }
    var o := FromPath(p).value;
    var marker := MarkerOf(p);
    if Exists(s, p).value || Exists(s, marker).value {
      if !existOk {
        return Err(AlreadyExists);
      }
    }
    if o.key.Some? {
      r := Touch(s, marker, now);
      if r.Ok? {
        MarkerInside(s, p);
      }
      return;
    }
    AddressOrRoot(p);
    var c := s.PutContainer(o.container);
    if c.Err? {
      return Err(AlreadyExists);
    }
    r := Ok(());
  }

  /** A stored marker makes its directory a directory. */
  lemma MarkerInside(s: Store, p: Path)
    requires p.absolute && |p.segs| >= 2 && FileAt(s, MarkerOf(p))
    ensures IsDir(s, p) == Ok(true)
  {
    var m := MarkerOf(p);
    assert m.segs[1..] == p.segs[1..] + [Keep];
    JoinConcat(p.segs[1..], [Keep]);
    assert Under(p) <= KeyOf(m);
  }

  /** A container that mkdir creates is empty, so it does not yet exist as a directory. */
  lemma NewContainerDoesNotExist(s: Store, c: Segment)
    requires c in s.objects && s.objects[c] == map[]
    ensures Exists(s, Path(true, [c])) == Ok(false)
  {
  }
}
