/**
 * Directory emulation over the flat store: a path is a directory when its
 * container lists at least one object under the path's key followed by the
 * separator, and a file when an object is stored under exactly its key.
 */
module Directory {
  import opened Wrappers
  import opened Paths
  import opened Store

  /** A key with a separator appended, unless it is empty or already ends with one. */
  function WithSep(key: string): string
  {
    if key != "" && key[|key| - 1] != Sep then key + [Sep] else key
  }

  /** The keys inside directory `p`: any key starting with this string (the empty string for a container). */
  function Under(p: Path): string
    requires |p.segs| >= 1
  {
    if |p.segs| == 1 then "" else Join(p.segs[1..]) + [Sep]
  }

  /** The key of the object a path of at least two components names. */
  function KeyOf(p: Path): string
    requires |p.segs| >= 2
  {
    Join(p.segs[1..])
  }

  /** Some object of `p`'s container lies inside directory `p`. */
  predicate HasContents(s: Store, p: Path)
    reads s
    requires |p.segs| >= 1
  {
    p.segs[0] in s.objects && exists k :: k in s.objects[p.segs[0]] && Under(p) <= k
  }

  /** An object is stored under exactly the (container, key) a path names. */
  predicate FileAt(s: Store, p: Path)
    reads s
  {
    |p.segs| >= 2 && s.Stored(p.segs[0], Some(KeyOf(p)))
  }

  // ---------------------------------------------------------------------
  // Lemmas on keys

  lemma {:induction false} JoinConcat(a: seq<string>, b: seq<string>)
    requires |a| >= 1 && |b| >= 1
    ensures Join(a + b) == Join(a) + [Sep] + Join(b)
  {
    if |a| == 1 {
      assert (a + b)[1..] == b;
    } else {
      assert (a + b)[1..] == a[1..] + b;
      JoinConcat(a[1..], b);
    }
  }

  lemma JoinNotDot(segs: seq<Segment>)
    requires |segs| >= 1
    ensures Join(segs) != "."
  {
    if |segs| >= 2 {
      assert Join(segs) == segs[0] + [Sep] + Join(segs[1..]);
      assert Join(segs)[|segs[0]|] == Sep;
    }
  }

  /** What `from_path` yields for a path of `p`'s shape, spelled in terms of `p`'s components. */
  lemma AddressOf(p: Path)
    requires p.absolute && |p.segs| >= 1
    ensures FromPath(p).Ok? && FromPath(p).value.container == p.segs[0]
    ensures |p.segs| == 1 ==> FromPath(p).value.key == None
    ensures |p.segs| >= 2 ==> FromPath(p).value.key == Some(KeyOf(p))
    ensures |p.segs| >= 2 ==> KeyOf(p) != "." && WithSep(KeyOf(p)) == KeyOf(p) + [Sep]
  {
    if |p.segs| >= 2 {
      JoinSegmentsNoEdgeSep(p.segs[1..]);
      JoinNotDot(p.segs[1..]);
    }
  }

  lemma AddressOrRoot(p: Path)
    requires p.absolute
    ensures p.segs == [] ==> FromPath(p) == Ok(ObjectPath("", None))
    ensures |p.segs| >= 1 ==> FromPath(p).Ok? && FromPath(p).value.container == p.segs[0]
    ensures |p.segs| == 1 ==> FromPath(p).value.key == None
    ensures |p.segs| >= 2 ==> FromPath(p).value.key == Some(KeyOf(p))
  {
    if |p.segs| >= 1 {
      AddressOf(p);
    }
  }

  // ---------------------------------------------------------------------
  // is_dir, is_file, exists

  /** `SwiftPath.is_dir` */
  function IsDir(s: Store, p: Path): (r: Result<bool>)
    reads s
    ensures r.Err? <==> !p.absolute
    ensures r.Err? ==> r.error == InvalidPath
    ensures p == Root ==> r == Ok(true)
    ensures p.absolute && |p.segs| >= 1 ==> (r == Ok(true) <==> HasContents(s, p))
  {
    if p == Root then Ok(true)
    else
      match FromPath(p)
      case Err(e) => Err(e)
      case Ok(o) =>
        var key := if o.key.Some? && o.key.value != "." then o.key.value else "";
        AddressOf(p);
        match s.Listing(o.container, WithSep(key), None)
        case Err(_) => Ok(false)
        case Ok(l) =>
          ListingEmpty(s, o.container, WithSep(key), None);
          Ok(l.1 != {})
  }

  /** `SwiftPath.is_file` */
  function IsFile(s: Store, p: Path): (r: Result<bool>)
    reads s
    ensures r.Err? <==> !p.absolute
    ensures r.Err? ==> r.error == InvalidPath
    ensures p.absolute ==> (r == Ok(true) <==> FileAt(s, p))
  {
    if !p.absolute then Err(InvalidPath)
    else
      var o := FromPath(p).value;
      if o.key.Some? && o.key.value == "." then Ok(false)
      else if Container(p).value.None? || Key(p).value.None? then Ok(false)
      else
        AddressOf(p);
        Ok(s.HeadObject(o.container, o.key).Ok?)
  }

  /** `SwiftPath.exists`: the root, a non-empty directory, or a stored object. */
  function Exists(s: Store, p: Path): (r: Result<bool>)
    reads s
    ensures r.Err? <==> !p.absolute
    ensures r.Err? ==> r.error == InvalidPath
    ensures p.absolute ==> (r == Ok(true) <==>
      p.segs == [] || HasContents(s, p) || FileAt(s, p))
  {
    match IsDir(s, p)
    case Err(e) => Err(e)
    case Ok(d) => Ok(d || IsFile(s, p).value)
  }

  /** Every ancestor of a stored object exists, down to the object itself. */
  lemma StoredAncestorsExist(s: Store, p: Path, j: nat)
    requires p.absolute && FileAt(s, p)
    requires j <= |p.segs|
    ensures Exists(s, Path(true, p.segs[..j])) == Ok(true)
  {
    var q := Path(true, p.segs[..j]);
    if j == |p.segs| {
      assert q == p;
    } else if j >= 2 {
      var a := p.segs[1..j];
      var b := p.segs[j..];
      assert p.segs[1..] == a + b;
      JoinConcat(a, b);
      assert q.segs[1..] == a;
      assert Under(q) <= KeyOf(p);
    } else if j == 1 {
      assert Under(q) == "";
    }
  }

  // ---------------------------------------------------------------------
  // listdir and iterdir

  function RowName(e: Entry): string
  {
    if e.SubdirEntry? then e.subdir else e.name
  }

  /** The name listdir reports for a listing row: the row stripped of separators, then its base name. */
  function NameOf(e: Entry): (r: string)
    ensures Sep !in r
  {
    Basename(Strip(RowName(e)))
  }

  /** The names listdir reports for an absolute path. */
  function ListedNames(s: Store, p: Path): set<string>
    reads s
    requires p.absolute
    requires p.segs != [] ==> p.segs[0] in s.objects
  {
    if p.segs == [] then s.objects.Keys
    else set e | e in s.Listing(p.segs[0], Under(p), Some(Sep)).value.1 :: NameOf(e)
  }

  /** No two rows of the listing below `p` are reported under the same name. */
  predicate NamesDistinct(s: Store, p: Path)
    reads s
  {
    p.absolute && p.segs != [] && p.segs[0] in s.objects ==>
      var rows := s.Listing(p.segs[0], Under(p), Some(Sep)).value.1;
      forall e1, e2 :: e1 in rows && e2 in rows && NameOf(e1) == NameOf(e2) ==> e1 == e2
  }

  /** `_SwiftAccessor.listdir`: container names at the root, else the names one level under the key. */
  method ListDir(s: Store, p: Path) returns (r: Result<seq<string>>)
    ensures r.Err? <==> !p.absolute || (p.segs != [] && p.segs[0] !in s.objects)
    ensures r.Err? ==> r.error == (if p.absolute then NotFound else InvalidPath)
    ensures r.Ok? ==> forall n :: n in r.value <==> n in ListedNames(s, p)
    ensures r.Ok? && p.segs != [] ==> forall i :: 0 <= i < |r.value| ==> Sep !in r.value[i]
    ensures r.Ok? && (p.segs == [] || NamesDistinct(s, p)) ==> Distinct(r.value)
  {
    if !p.absolute {
      return Err(InvalidPath);
    }
    var o := FromPath(p).value;
    var results: seq<string> := [];
    if o.container == "" {
      var names := s.GetAccount();
      for i := 0 to |names|
        invariant results == names[..i]
      {
        results := results + [names[i]];
      }
      assert results == names;
      return Ok(results);
    }
    AddressOf(p);
    var target := if o.key.Some? then WithSep(o.key.value) else "";
    assert target == Under(p);
    var l := s.GetContainer(o.container, target, Some(Sep));
    if l.Err? {
      return Err(NotFound);
    }
    var rows := l.value.1;
    for i := 0 to |rows|
      invariant |results| == i
      invariant forall j :: 0 <= j < i ==> results[j] == Strip(RowName(rows[j]))
    {
      results := results + [Strip(RowName(rows[i]))];
    }
    var names := seq(|results|, j requires 0 <= j < |results| => Basename(results[j]));
    ListDirNames(s, p, rows, names);
    r := Ok(names);
  }

  lemma ListDirNames(s: Store, p: Path, rows: seq<Entry>, names: seq<string>)
    requires p.absolute && p.segs != [] && p.segs[0] in s.objects
    requires forall e :: e in rows <==> e in s.Listing(p.segs[0], Under(p), Some(Sep)).value.1
    requires |names| == |rows| && forall j :: 0 <= j < |rows| ==> names[j] == NameOf(rows[j])
    ensures forall n :: n in names <==> n in ListedNames(s, p)
    ensures Distinct(rows) && NamesDistinct(s, p) ==> Distinct(names)
  {
    var L := s.Listing(p.segs[0], Under(p), Some(Sep)).value.1;
    forall n | n in ListedNames(s, p) ensures n in names {
      var e :| e in L && n == NameOf(e);
      var j :| 0 <= j < |rows| && rows[j] == e;
      assert names[j] == n;
    }
    if Distinct(rows) && NamesDistinct(s, p) {
      forall i, j | 0 <= i < j < |names| ensures names[i] != names[j] {
        assert rows[i] in L && rows[j] in L;
      }
    }
  }

  /** The names iterdir never yields. */
  const Keep: string := ".swiftkeep"

  predicate Skipped(name: string, includeKeep: bool)
  {
    name == "." || name == ".." || (name == Keep && !includeKeep)
  }

  /** `p / name`; a name that is no component (the empty name) leaves the path as it is. */
  function ChildNamed(p: Path, name: string): Path
  {
    if IsSegment(name) then Child(p, name) else p
  }

  /** Every name listed below `p` that iterdir does not skip is a proper component. */
  predicate ProperNames(s: Store, p: Path, includeKeep: bool)
    reads s
  {
    p.absolute && (p.segs != [] ==> p.segs[0] in s.objects) ==>
      forall n :: n in ListedNames(s, p) && !Skipped(n, includeKeep) ==> IsSegment(n)
  }

  /** `SwiftPath.iterdir` without recursion. */
  method IterDir(s: Store, p: Path, includeKeep: bool) returns (r: Result<seq<Path>>)
    ensures r.Err? <==> !p.absolute || (p.segs != [] && p.segs[0] !in s.objects)
    ensures r.Err? ==> r.error == (if p.absolute then NotFound else InvalidPath)
    ensures r.Ok? ==> forall q :: q in r.value <==>
      exists n :: n in ListedNames(s, p) && !Skipped(n, includeKeep) && q == ChildNamed(p, n)
    ensures r.Ok? ==> forall q :: q in r.value && q != p ==>
      q.absolute && |q.segs| == |p.segs| + 1 && q.segs[..|p.segs|] == p.segs && !Skipped(q.segs[|p.segs|], includeKeep)
    ensures r.Ok? && (p.segs == [] || NamesDistinct(s, p)) && ProperNames(s, p, includeKeep) ==> Distinct(r.value)
  {
    var names := ListDir(s, p);
    if names.Err? {
      return Err(names.error);
    }
    ghost var proper := (p.segs == [] || NamesDistinct(s, p)) && ProperNames(s, p, includeKeep);
    var paths: seq<Path> := [];
    for i := 0 to |names.value|
      invariant forall q :: q in paths <==>
        exists j :: 0 <= j < i && !Skipped(names.value[j], includeKeep) && q == ChildNamed(p, names.value[j])
      invariant proper ==> Distinct(paths)
    {
      var name := names.value[i];
      if !Skipped(name, includeKeep) {
        ghost var before := paths;
        paths := paths + [ChildNamed(p, name)];
        if proper {
          assert name in ListedNames(s, p);
          assert IsSegment(name);
          forall x | x in before ensures x != Child(p, name) {
            var j :| 0 <= j < i && !Skipped(names.value[j], includeKeep) && x == ChildNamed(p, names.value[j]);
            assert names.value[j] in ListedNames(s, p);
            assert Child(p, names.value[j]).segs[|p.segs|] == names.value[j];
          }
          forall a, b | 0 <= a < b < |paths| ensures paths[a] != paths[b] {
            if b == |before| {
              assert paths[a] in before;
            } else {
              assert paths[a] == before[a] && paths[b] == before[b];
            }
          }
        }
      }
    }
    r := Ok(paths);
  }

  // ---------------------------------------------------------------------
  // What listdir names

  lemma {:induction false} BasenameAfterSep(u: string, x: string)
    requires u == "" || u[|u| - 1] == Sep
    requires Sep !in x
    ensures Basename(u + x) == x
  {
    if x == [] {
      assert u + x == u;
    } else {
      var y := x[..|x| - 1];
      assert (u + x)[..|u + x| - 1] == u + y;
      BasenameAfterSep(u, y);
      assert x == y + [x[|x| - 1]];
    }
  }

  /** Stripping and taking the base name of a row one level under `u` leaves its last segment. */
  lemma NameOfNext(u: string, x: string)
    requires u == "" || (u[0] != Sep && u[|u| - 1] == Sep)
    requires x != "" && Sep !in x
    ensures Basename(Strip(u + x)) == x
    ensures Basename(Strip(u + x + [Sep])) == x
  {
    var w := u + x;
    assert x[0] in x && x[|x| - 1] in x;
    assert w[0] != Sep by {
      if u == "" {
        assert w[0] == x[0];
      }
    }
    assert w[|w| - 1] == x[|x| - 1];
    assert LStrip(w) == w;
    assert RStrip(w) == w;
    BasenameAfterSep(u, x);
    var v := w + [Sep];
    assert LStrip(v) == v by {
      assert v[0] == w[0];
    }
    assert v[..|v| - 1] == w;
    assert RStrip(v) == RStrip(w);
  }

  lemma UnderShape(p: Path)
    requires |p.segs| >= 1
    ensures Under(p) == "" || (Under(p)[0] != Sep && Under(p)[|Under(p)| - 1] == Sep)
  {
    if |p.segs| >= 2 {
      JoinSegmentsNoEdgeSep(p.segs[1..]);
    }
  }

  /** The segment that follows the directory's prefix in key `k`. */
  function NextSegment(p: Path, k: string): string
    requires |p.segs| >= 1 && Under(p) <= k
  {
    TakeUntil(k[|Under(p)|..], {Sep})
  }

  /** listdir names the next segment of every key inside the directory. */
  lemma ListedNextSegment(s: Store, p: Path, k: string)
    requires p.absolute && |p.segs| >= 1 && p.segs[0] in s.objects
    requires k in s.objects[p.segs[0]] && Under(p) <= k
    requires NextSegment(p, k) != ""
    ensures NextSegment(p, k) in ListedNames(s, p)
  {
    UnderShape(p);
    var e := RowOfKey(s, p, k);
    NameListed(s, p, e);
  }

  lemma NameListed(s: Store, p: Path, e: Entry)
    requires p.absolute && |p.segs| >= 1 && p.segs[0] in s.objects
    requires e in s.Listing(p.segs[0], Under(p), Some(Sep)).value.1
    ensures NameOf(e) in ListedNames(s, p)
  {
  }

  /** The row a key inside the directory shows as, and the name listdir gives it. */
  lemma RowOfKey(s: Store, p: Path, k: string) returns (e: Entry)
    requires p.absolute && |p.segs| >= 1 && p.segs[0] in s.objects
    requires k in s.objects[p.segs[0]] && Under(p) <= k
    requires NextSegment(p, k) != ""
    requires Under(p) == "" || (Under(p)[0] != Sep && Under(p)[|Under(p)| - 1] == Sep)
    ensures e in s.Listing(p.segs[0], Under(p), Some(Sep)).value.1
    ensures e == EntryOf(Under(p), Some(Sep), k, s.objects[p.segs[0]][k])
    ensures NameOf(e) == NextSegment(p, k)
  {
    var u := Under(p);
    var next := NextSegment(p, k);
    if Sep in k[|u|..] {
      ListingCollapses(s, p.segs[0], u, Sep, k);
      SubdirName(u, next);
      e := SubdirEntry(u + next + [Sep]);
    } else {
      ListingShowsKey(s, p.segs[0], u, Some(Sep), k);
      e := EntryOf(u, Some(Sep), k, s.objects[p.segs[0]][k]);
      ObjectName(u, k, s.objects[p.segs[0]][k]);
    }
  }

  lemma SubdirName(u: string, next: string)
    requires u == "" || (u[0] != Sep && u[|u| - 1] == Sep)
    requires next != "" && Sep !in next
    ensures NameOf(SubdirEntry(u + next + [Sep])) == next
  {
    NameOfNext(u, next);
  }

  lemma ObjectName(u: string, k: string, o: Obj)
    requires u == "" || (u[0] != Sep && u[|u| - 1] == Sep)
    requires u <= k && Sep !in k[|u|..] && k[|u|..] != ""
    ensures TakeUntil(k[|u|..], {Sep}) == k[|u|..]
    ensures NameOf(EntryOf(u, Some(Sep), k, o)) == k[|u|..]
  {
    var rest := k[|u|..];
    TakeUntilAll(rest, {Sep});
    assert k == u + rest;
    NameOfNext(u, rest);
  }

  // ---------------------------------------------------------------------
  // scandir

  const SymlinkType: string := "application/symlink"

  /** A `SwiftDirEntry`: its name and what it is. */
  datatype DirEntry = DirEntry(name: string, isDir: bool, isSymlink: bool)

  /** The entry scandir yields for a listing row: "/container/row" taken relative to the scanned path. */
  function RowEntry(p: Path, row: Entry): Result<DirEntry>
    requires |p.segs| >= 1
  {
    var q := Parse([Sep] + p.segs[0] + [Sep] + RowName(row));
    if !(p.segs <= q.segs) then Err(InvalidPath)
    else
      var name := Str(Path(false, q.segs[|p.segs|..]));
      if row.SubdirEntry? then Ok(DirEntry(name, true, false))
      else Ok(DirEntry(name, false, row.contentType == SymlinkType))
  }

  /** `_SwiftScandir.__iter__`, with the entries it yields collected in a list. */
  method Scandir(s: Store, p: Path) returns (r: Result<seq<DirEntry>>)
    ensures !p.absolute ==> r == Err(NoneDereference)
    ensures p.absolute ==> (r.Err? <==> p.segs != [] && p.segs[0] !in s.objects)
    ensures p.absolute && r.Err? ==> r.error == ClientError
    ensures r.Ok? && p.segs == [] ==> forall e :: e in r.value <==> e.name in s.objects && e == DirEntry(e.name, true, false)
    ensures r.Ok? && p.segs != [] ==> forall e :: e in r.value <==>
      exists row :: row in s.Listing(p.segs[0], Under(p), Some(Sep)).value.1 && RowEntry(p, row) == Ok(e)
  {
    if !p.absolute {
      // from_path fails, and the container of the None that replaces it is looked up
      return Err(NoneDereference);
    }
    var o := FromPath(p).value;
    if o.container == "" {
      var names := s.GetAccount();
      var entries := ContainerEntries(names);
      AccountEntries(s, names, entries);
      return Ok(entries);
    }
    AddressOf(p);
    var path := if o.key.Some? then WithSep(o.key.value) else "";
    assert path == Under(p);
    var l := s.GetContainer(o.container, path, Some(Sep));
    if l.Err? {
      return Err(l.error);
    }
    var entries := ListingEntries(s, p, l.value.1);
    RowEntries(s, p, l.value.1, entries);
    r := Ok(entries);
  }

  /** One directory entry per container name. */
  method ContainerEntries(names: seq<string>) returns (entries: seq<DirEntry>)
    ensures |entries| == |names| && forall j :: 0 <= j < |names| ==> entries[j] == DirEntry(names[j], true, false)
  {
    entries := [];
    for i := 0 to |names|
      invariant |entries| == i
      invariant forall j :: 0 <= j < i ==> entries[j] == DirEntry(names[j], true, false)
    {
      entries := entries + [DirEntry(names[i], true, false)];
    }
  }

  /** One entry per listing row, in the order of the rows. */
  method ListingEntries(s: Store, p: Path, rows: seq<Entry>) returns (entries: seq<DirEntry>)
    requires p.absolute && |p.segs| >= 1 && p.segs[0] in s.objects
    requires forall e :: e in rows ==> e in s.Listing(p.segs[0], Under(p), Some(Sep)).value.1
    ensures |entries| == |rows| && forall j :: 0 <= j < |rows| ==> RowEntry(p, rows[j]) == Ok(entries[j])
  {
    entries := [];
    for i := 0 to |rows|
      invariant |entries| == i
      invariant forall j :: 0 <= j < i ==> RowEntry(p, rows[j]) == Ok(entries[j])
    {
      RowEntryClassifies(s, p, rows[i]);
      entries := entries + [RowEntry(p, rows[i]).value];
    }
  }

  lemma AccountEntries(s: Store, names: seq<string>, entries: seq<DirEntry>)
    requires forall c :: c in names <==> c in s.objects
    requires |entries| == |names| && forall j :: 0 <= j < |names| ==> entries[j] == DirEntry(names[j], true, false)
    ensures forall e :: e in entries <==> e.name in s.objects && e == DirEntry(e.name, true, false)
  {
    forall e: DirEntry | e.name in s.objects && e == DirEntry(e.name, true, false) ensures e in entries {
      var j :| 0 <= j < |names| && names[j] == e.name;
      assert entries[j] == e;
    }
  }

  lemma RowEntries(s: Store, p: Path, rows: seq<Entry>, entries: seq<DirEntry>)
    requires p.absolute && |p.segs| >= 1 && p.segs[0] in s.objects
    requires forall e :: e in rows <==> e in s.Listing(p.segs[0], Under(p), Some(Sep)).value.1
    requires |entries| == |rows| && forall j :: 0 <= j < |rows| ==> RowEntry(p, rows[j]) == Ok(entries[j])
    ensures forall e :: e in entries <==>
      exists row :: row in s.Listing(p.segs[0], Under(p), Some(Sep)).value.1 && RowEntry(p, row) == Ok(e)
  {
    var L := s.Listing(p.segs[0], Under(p), Some(Sep)).value.1;
    forall e | e in entries ensures exists row :: row in L && RowEntry(p, row) == Ok(e) {
      var j :| 0 <= j < |entries| && entries[j] == e;
      assert rows[j] in L;
    }
    forall e | (exists row :: row in L && RowEntry(p, row) == Ok(e)) ensures e in entries {
      var row :| row in L && RowEntry(p, row) == Ok(e);
      var j :| 0 <= j < |rows| && rows[j] == row;
      assert entries[j] == e;
    }
  }

  lemma {:induction false} SplitOnJoinSep(parts: seq<Segment>, t: string)
    requires |parts| >= 1
    ensures SplitOn(Join(parts) + [Sep] + t) == parts + SplitOn(t)
  {
    var head := parts[0];
    if |parts| == 1 {
      SplitOnSep(head, t);
    } else {
      var tail := parts[1..];
      var rest := Join(tail) + [Sep] + t;
      calc {
        SplitOn(Join(parts) + [Sep] + t);
        { assert Join(parts) + [Sep] + t == head + [Sep] + rest; }
        SplitOn(head + [Sep] + rest);
        { SplitOnSep(head, rest); }
        [head] + SplitOn(rest);
        { SplitOnJoinSep(tail, t); }
        [head] + (tail + SplitOn(t));
        { assert parts == [head] + tail; }
        parts + SplitOn(t);
      }
    }
  }

  lemma CleanRoot(c: Segment)
    ensures Clean(["", c]) == [c]
  {
    assert ["", c][1..] == [c];
    assert Clean([c]) == [c] + Clean([]);
  }

  /** Parsing "/container/" and a key inside directory `p` gives `p`'s components, then the rest's. */
  lemma ParseUnder(p: Path, t: string)
    requires |p.segs| >= 1
    ensures Parse([Sep] + p.segs[0] + [Sep] + (Under(p) + t)).segs == p.segs + Clean(SplitOn(t))
  {
    var c := p.segs[0];
    var x := Under(p) + t;
    var str := [Sep] + c + [Sep] + x;
    assert Parse(str).segs == Clean(SplitOn(str));
    if |p.segs| == 1 {
      assert x == t;
      ParseUnderContainer(c, t);
    } else {
      ParseUnderKey(c, p.segs[1..], t);
      assert x == Join(p.segs[1..]) + [Sep] + t;
      assert p.segs == [c] + p.segs[1..];
    }
  }

  lemma ParseUnderContainer(c: Segment, t: string)
    ensures Clean(SplitOn([Sep] + c + [Sep] + t)) == [c] + Clean(SplitOn(t))
  {
    SplitAbs(c, t);
    CleanConcat(["", c], SplitOn(t));
    CleanRoot(c);
  }

  lemma ParseUnderKey(c: Segment, segs: seq<Segment>, t: string)
    requires |segs| >= 1
    ensures Clean(SplitOn([Sep] + c + [Sep] + (Join(segs) + [Sep] + t))) == [c] + segs + Clean(SplitOn(t))
  {
    var x := Join(segs) + [Sep] + t;
    SplitAbs(c, x);
    SplitOnJoinSep(segs, t);
    assert ["", c] + SplitOn(x) == ["", c] + (segs + SplitOn(t));
    CleanConcat(["", c], segs + SplitOn(t));
    CleanConcat(segs, SplitOn(t));
    CleanSegments(segs);
    CleanRoot(c);
  }

  /**
   * Each row of the listing scandir reads becomes an entry: collapsed rows are
   * directories, object rows are symlinks exactly when their content type says
   * so, and the name is the row's next segment after the scanned directory.
   */
  lemma RowEntryClassifies(s: Store, p: Path, row: Entry)
    requires p.absolute && |p.segs| >= 1 && p.segs[0] in s.objects
    requires row in s.Listing(p.segs[0], Under(p), Some(Sep)).value.1
    ensures RowEntry(p, row).Ok?
    ensures RowEntry(p, row).value.isDir <==> row.SubdirEntry?
    ensures RowEntry(p, row).value.isSymlink <==> row.ObjectEntry? && row.contentType == SymlinkType
    ensures Under(p) <= RowName(row)
    ensures var next := TakeUntil(RowName(row)[|Under(p)|..], {Sep});
      IsSegment(next) ==> RowEntry(p, row).value.name == next
  {
    ListingOneLevel(s, p.segs[0], Under(p), Sep, row);
    if row.SubdirEntry? {
      var next: string :| Sep !in next && row.subdir == Under(p) + next + [Sep];
      SubdirEntryName(p, next, row);
    } else {
      ObjectEntryName(p, row);
    }
  }

  lemma SubdirEntryName(p: Path, next: string, row: Entry)
    requires |p.segs| >= 1 && row.SubdirEntry?
    requires Sep !in next && row.subdir == Under(p) + next + [Sep]
    ensures RowEntry(p, row).Ok? && Under(p) <= RowName(row)
    ensures RowName(row)[|Under(p)|..] == next + [Sep]
    ensures TakeUntil(next + [Sep], {Sep}) == next
    ensures IsSegment(next) ==> RowEntry(p, row).value.name == next
  {
    var t := next + [Sep];
    assert row.subdir == Under(p) + t;
    ParseUnder(p, t);
    CleanNextSep(next);
    TakeUntilPrefix(next, [Sep], {Sep});
  }

  lemma CleanNextSep(next: string)
    requires Sep !in next
    ensures Clean(SplitOn(next + [Sep])) == if IsSegment(next) then [next] else []
  {
    assert next + [Sep] == next + [Sep] + "";
    SplitOnSep(next, "");
    assert SplitOn(next + [Sep]) == [next, ""];
    assert Clean([next, ""]) == Clean([next]) + Clean([""]) by {
      CleanConcat([next], [""]);
    }
    assert Clean([""]) == [] + Clean([]);
    assert Clean([next]) == (if IsSegment(next) then [next] else []) + Clean([]);
  }

  lemma ObjectEntryName(p: Path, row: Entry)
    requires |p.segs| >= 1 && row.ObjectEntry?
    requires Under(p) <= row.name && Sep !in row.name[|Under(p)|..]
    ensures RowEntry(p, row).Ok?
    ensures var t := row.name[|Under(p)|..];
      TakeUntil(t, {Sep}) == t && (IsSegment(t) ==> RowEntry(p, row).value.name == t)
  {
    var t := row.name[|Under(p)|..];
    assert row.name == Under(p) + t;
    ParseUnder(p, t);
    SplitOnPlain(t);
    TakeUntilAll(t, {Sep});
    var q := Parse([Sep] + p.segs[0] + [Sep] + RowName(row));
    assert q.segs == p.segs + Clean([t]);
    if IsSegment(t) {
      assert Clean([t]) == [t] + Clean([]);
      assert q.segs[|p.segs|..] == [t];
    }
  }

  // ---------------------------------------------------------------------
  // stat

  /** Where stat takes the modification time from. */
  datatype Mtime = MetaMtime(text: string) | Timestamp(text: string) | Epoch

  /** A `StatResult`: the content length as the header gives it, and the modification time's source. */
  datatype StatResult = StatResult(size: string, mtime: Mtime)

  /** `x-object-meta-mtime` first, then `x-timestamp`, else the epoch. */
  function MtimeOf(h: Headers): Mtime
  {
    if "x-object-meta-mtime" in h then MetaMtime(h["x-object-meta-mtime"])
    else if "x-timestamp" in h then Timestamp(h["x-timestamp"])
    else Epoch
  }

  function StatOf(h: Headers): Result<StatResult>
  {
    if "content-length" in h then Ok(StatResult(h["content-length"], MtimeOf(h))) else Err(MissingHeader)
  }

  /** The container name `from_path` gives: empty for the root. */
  function ContainerName(p: Path): string
  {
    if p.segs == [] then "" else p.segs[0]
  }

  /**
   * `_SwiftAccessor.stat`: an exact HEAD first; failing that, the listing of
   * the container, whose headers stand in; NotFound only when both fail.
   */
  function Stat(s: Store, p: Path): (r: Result<StatResult>)
    reads s
    ensures !p.absolute ==> r == Err(InvalidPath)
    ensures p.absolute && FileAt(s, p) ==>
      var o := s.objects[p.segs[0]][KeyOf(p)];
      r == Ok(StatResult(Decimal(|o.data|), MtimeOf(o.headers)))
    ensures p.absolute && !FileAt(s, p) ==>
      r == (if ContainerName(p) in s.objects then StatOf(s.ContainerMeta(ContainerName(p))) else Err(NotFound))
  {
    match FromPath(p)
    case Err(e) => Err(e)
    case Ok(o) =>
      AddressOrRoot(p);
      match s.HeadObject(o.container, o.key)
      case Ok(h) =>
        assert MtimeOf(h) == MtimeOf(s.objects[p.segs[0]][KeyOf(p)].headers);
        StatOf(h)
      case Err(_) =>
        var prefix := if o.key.Some? then o.key.value else "";
        match s.Listing(o.container, prefix, None)
        case Err(_) => Err(NotFound)
        case Ok(l) => StatOf(l.0)
  }

  /** stat succeeds on every absolute path inside an existing container, a container itself included. */
  lemma StatOfContainer(s: Store, p: Path)
    requires p.absolute
    ensures Stat(s, p).Ok? <==> ContainerName(p) in s.objects
    ensures !FileAt(s, p) && ContainerName(p) in s.objects ==>
      Stat(s, p) == Ok(StatResult(s.ContainerMeta(ContainerName(p))["content-length"], MtimeOf(s.ContainerMeta(ContainerName(p)))))
  {
  }
}
