/**
 * Hierarchical paths and the (container, key) addresses they denote.
 *
 * A path is a root flag plus its components, the way pathlib keeps a POSIX
 * path: components are non-empty, never contain the separator, and "." never
 * survives parsing. The first component of an absolute path names the
 * container; the rest, joined with '/', is the object key.
 */
module Paths {
  import opened Wrappers

  const Sep: char := '/'

  predicate IsSegment(s: string) {
    s != "" && Sep !in s && s != "."
  }

  type Segment = s: string | IsSegment(s) witness "a"

  datatype Path = Path(absolute: bool, segs: seq<Segment>)

  /** The account root "/". */
  const Root: Path := Path(true, [])

  /** `"/".join(parts)` */
  function Join(parts: seq<string>): string
  {
    if |parts| == 0 then ""
    else if |parts| == 1 then parts[0]
    else parts[0] + [Sep] + Join(parts[1..])
  }

  /** `s.split("/")`: one more piece than there are separators. */
  function SplitOn(s: string): (r: seq<string>)
    ensures |r| >= 1
    ensures forall i :: 0 <= i < |r| ==> Sep !in r[i]
  {
    if s == [] then [""]
    else if s[0] == Sep then [""] + SplitOn(s[1..])
    else
      var t := SplitOn(s[1..]);
      [[s[0]] + t[0]] + t[1..]
  }

  /** The pieces pathlib keeps: empty pieces and "." are dropped. */
  function Clean(parts: seq<string>): seq<Segment>
  {
    if parts == [] then []
    else
      var head: seq<Segment> := if IsSegment(parts[0]) then [parts[0]] else [];
      head + Clean(parts[1..])
  }

  /** Constructing a path from its string form. */
  function Parse(s: string): Path
  {
    Path(|s| > 0 && s[0] == Sep, Clean(SplitOn(s)))
  }

  /** `str(path)` */
  function Str(p: Path): string
  {
    if p.absolute then [Sep] + Join(p.segs)
    else if p.segs == [] then "."
    else Join(p.segs)
  }

  /** `a.joinpath(b)`: an absolute right operand replaces the left one. */
  function JoinPath(a: Path, b: Path): Path
  {
    if b.absolute then b else Path(a.absolute, a.segs + b.segs)
  }

  /** `a._make_child_relpath(name)` / `a / name` for a single component. */
  function Child(a: Path, name: Segment): Path
  {
    Path(a.absolute, a.segs + [name])
  }

  // ---------------------------------------------------------------------
  // Stripping separators (str.strip, str.lstrip, str.rstrip with "/")

  function LStrip(s: string): string
  {
    if s != [] && s[0] == Sep then LStrip(s[1..]) else s
  }

  function RStrip(s: string): string
  {
    if s != [] && s[|s| - 1] == Sep then RStrip(s[..|s| - 1]) else s
  }

  function Strip(s: string): string
  {
    RStrip(LStrip(s))
  }

  /** `os.path.basename`: what follows the last separator. */
  function Basename(s: string): (r: string)
    ensures Sep !in r
  {
    if s == [] then []
    else if s[|s| - 1] == Sep then []
    else Basename(s[..|s| - 1]) + [s[|s| - 1]]
  }

  // ---------------------------------------------------------------------
  // PureSwiftPath.container / .key

  /** `path.container`: the container as a one-component absolute path; None for the root. */
  function Container(p: Path): (r: Result<Option<Path>>)
    ensures r.Err? <==> !p.absolute
    ensures r.Err? ==> r.error == InvalidPath
    ensures r.Ok? ==> (r.value.None? <==> p.segs == [])
    ensures r.Ok? && r.value.Some? ==> r.value.value.absolute && r.value.value.segs == [p.segs[0]]
  {
    if !p.absolute then Err(InvalidPath)
    else if |p.segs| < 1 then Ok(None)
    else Ok(Some(Path(true, [p.segs[0]])))
  }

  /** `path.key`: everything after the container as a relative path; None when there is nothing. */
  function Key(p: Path): (r: Result<Option<Path>>)
    ensures r.Err? <==> !p.absolute
    ensures r.Err? ==> r.error == InvalidPath
    ensures r.Ok? ==> (r.value.None? <==> |p.segs| <= 1)
    ensures r.Ok? && r.value.Some? ==> !r.value.value.absolute && p.segs == [p.segs[0]] + r.value.value.segs
  {
    if !p.absolute then Err(InvalidPath)
    else
      // "/".join(parts[2:]), where parts[0] is the root
      var key := if |p.segs| >= 2 then Join(p.segs[1..]) else "";
      if key == "" then Ok(None)
      else
        assert |p.segs| >= 2;
        assert p.segs == [p.segs[0]] + p.segs[1..];
        Ok(Some(Path(false, p.segs[1..])))
  }

  // ---------------------------------------------------------------------
  // ObjectPath

  datatype ObjectPath = ObjectPath(container: string, key: Option<string>)

  /** `ObjectPath.from_path` */
  function FromPath(p: Path): (r: Result<ObjectPath>)
    ensures r.Err? <==> !p.absolute
    ensures r.Err? ==> r.error == InvalidPath
    ensures r.Ok? ==> Sep !in r.value.container
    ensures r.Ok? ==> (r.value.container == "" <==> p.segs == [])
    ensures r.Ok? && r.value.key.Some? ==> r.value.key.value != "" && r.value.key.value[0] != Sep
    ensures r.Ok? ==> (r.value.key.Some? <==> |p.segs| >= 2)
    ensures r.Ok? && p.segs != [] ==> r.value.container == p.segs[0]
    ensures r.Ok? && r.value.key.Some? ==> r.value.key.value == Join(p.segs[1..])
  {
    match Container(p)
    case Err(e) => Err(e)
    case Ok(c) =>
      var container := if c.Some? then Str(c.value) else "";
      var k := Key(p).value;
      var key := if k.Some? then Some(LStrip(Str(k.value))) else None;
      StripSegment(p, c);
      KeyString(p, k);
      Ok(ObjectPath(Strip(container), key))
  }

  /** `str(object_path)`: a missing or empty key prints as the container with a trailing separator. */
  function Show(o: ObjectPath): string
  {
    if o.key.None? || o.key.value == "" then [Sep] + o.container + [Sep]
    else [Sep] + o.container + [Sep] + o.key.value
  }

  /** `ObjectPath.as_path` */
  function AsPath(o: ObjectPath): Path
  {
    Parse(Show(o))
  }

  // ---------------------------------------------------------------------
  // PureSwiftPath._parse_uri / from_uri

  const Scheme: string := "swift://"

  function TakeUntil(s: string, stops: set<char>): (r: string)
    ensures r <= s
    ensures forall i :: 0 <= i < |r| ==> r[i] !in stops
    ensures |r| < |s| ==> s[|r|] in stops
  {
    if s == [] || s[0] in stops then [] else [s[0]] + TakeUntil(s[1..], stops)
  }

  /** The characters urlsplit deletes from the whole URL before it splits it. */
  predicate Plain(s: string) {
    '\t' !in s && '\r' !in s && '\n' !in s
  }

  predicate Unsafe(ch: char) {
    ch == '\t' || ch == '\r' || ch == '\n'
  }

  /** The URL with tabs, carriage returns and line feeds deleted. */
  function DropUnsafe(s: string): (r: string)
    ensures Plain(r)
    ensures Plain(s) ==> r == s
  {
    if s == [] then []
    else if Unsafe(s[0]) then DropUnsafe(s[1..])
    else
      assert Plain(s) ==> Plain(s[1..]) by {
        assert forall x :: x in s[1..] ==> x in s;
      }
      [s[0]] + DropUnsafe(s[1..])
  }

  /** The authority (netloc) urlsplit reads after `swift://`: everything up to the first `/`, `?` or `#`. */
  function Authority(uri: string): (r: string)
    requires Scheme <= uri
    ensures Plain(r) && Sep !in r && '?' !in r && '#' !in r
  {
    TakeUntil(DropUnsafe(uri[|Scheme|..]), {Sep, '?', '#'})
  }

  /** urlsplit refuses an authority holding one of `[` and `]` without the other, as a broken IPv6 address. */
  predicate OneBracket(netloc: string) {
    ('[' in netloc) != (']' in netloc)
  }

  /**
   * The `path` field that urlparse yields for a swift URI, given what
   * follows `swift://` once tabs and line breaks are deleted, after
   * `_parse_uri` has moved a non-empty authority (netloc) into it as the
   * first component.
   */
  function UriPath(rest: string): string
  {
    var netloc := TakeUntil(rest, {Sep, '?', '#'});
    var path := TakeUntil(rest[|netloc|..], {'?', '#'});
    if netloc != "" then
      [Sep] + Strip(netloc) + (if path != "" then [Sep] + path else "")
    else path
  }

  /** `PureSwiftPath.from_uri` */
  function FromUri(uri: string): (r: Result<Path>)
    ensures r.Err? <==> !(Scheme <= uri) || OneBracket(Authority(uri))
    ensures r.Err? ==> r.error == InvalidArgument
  {
    if !(Scheme <= uri) then Err(InvalidArgument)
    else
      var rest := DropUnsafe(uri[|Scheme|..]);
      if OneBracket(TakeUntil(rest, {Sep, '?', '#'})) then Err(InvalidArgument)
      else Ok(Parse(UriPath(rest)))
  }

  /** urlsplit deletes a tab, carriage return or line feed anywhere after the scheme. */
  lemma UriDropsControl(a: string, ch: char, b: string)
    requires Unsafe(ch)
    ensures FromUri(Scheme + a + [ch] + b) == FromUri(Scheme + a + b)
  {
    var u := Scheme + a + [ch] + b;
    var v := Scheme + a + b;
    assert u[|Scheme|..] == a + ([ch] + b);
    assert v[|Scheme|..] == a + b;
    DropUnsafeConcat(a, [ch] + b);
    DropUnsafeConcat(a, b);
    assert ([ch] + b)[1..] == b;
    assert DropUnsafe(u[|Scheme|..]) == DropUnsafe(v[|Scheme|..]);
  }

  lemma {:induction false} DropUnsafeConcat(a: string, b: string)
    ensures DropUnsafe(a + b) == DropUnsafe(a) + DropUnsafe(b)
  {
    if a != [] {
      assert (a + b)[0] == a[0];
      assert (a + b)[1..] == a[1..] + b;
      DropUnsafeConcat(a[1..], b);
      if !Unsafe(a[0]) {
        assert [a[0]] + (DropUnsafe(a[1..]) + DropUnsafe(b)) == [a[0]] + DropUnsafe(a[1..]) + DropUnsafe(b);
      }
    } else {
      assert a + b == b;
    }
  }

  /**
   * An authority with one bracket makes the URI fail (`swift://a[b/c`);
   * one with both or neither is read as the first component (`swift://[a]/c`).
   */
  lemma BracketedAuthority(c: string, k: string)
    requires c != "" && Sep !in c && '?' !in c && '#' !in c && Plain(c)
    requires '?' !in k && '#' !in k && Plain(k)
    ensures FromUri(Scheme + (c + [Sep] + k)).Err? <==> OneBracket(c)
  {
    FoldedRest(c, k);
    UriPathFolded(c, k);
  }

  // ---------------------------------------------------------------------
  // Lemmas about splitting and joining

  lemma {:induction false} JoinSplitOn(s: string)
    ensures Join(SplitOn(s)) == s
  {
    if s == [] {
    } else if s[0] == Sep {
      JoinSplitOn(s[1..]);
      assert s == [Sep] + s[1..];
    } else {
      JoinSplitOn(s[1..]);
      var t := SplitOn(s[1..]);
      if |t| == 1 {
        assert s == [s[0]] + t[0];
      } else {
        assert ([[s[0]] + t[0]] + t[1..])[1..] == t[1..];
        assert s == [s[0]] + (t[0] + [Sep] + Join(t[1..]));
      }
    }
  }

  lemma {:induction false} SplitOnPlain(a: string)
    requires Sep !in a
    ensures SplitOn(a) == [a]
  {
    if a != [] {
      SplitOnPlain(a[1..]);
      assert a == [a[0]] + a[1..];
    }
  }

  lemma {:induction false} SplitOnSep(a: string, b: string)
    requires Sep !in a
    ensures SplitOn(a + [Sep] + b) == [a] + SplitOn(b)
  {
    var s := a + [Sep] + b;
    if a == [] {
      assert s[0] == Sep && s[1..] == b;
    } else {
      assert s[0] == a[0] && s[1..] == a[1..] + [Sep] + b;
      SplitOnSep(a[1..], b);
      assert a == [a[0]] + a[1..];
    }
  }

  lemma {:induction false} SplitOnJoin(parts: seq<string>)
    requires |parts| >= 1
    requires forall i :: 0 <= i < |parts| ==> Sep !in parts[i]
    ensures SplitOn(Join(parts)) == parts
  {
    if |parts| == 1 {
      SplitOnPlain(parts[0]);
    } else {
      SplitOnJoin(parts[1..]);
      SplitOnSep(parts[0], Join(parts[1..]));
      assert parts == [parts[0]] + parts[1..];
    }
  }

  lemma {:induction false} CleanSegments(segs: seq<Segment>)
    ensures Clean(segs) == segs
  {
    if segs != [] {
      CleanSegments(segs[1..]);
      assert segs == [segs[0]] + segs[1..];
    }
  }

  lemma {:induction false} CleanConcat(a: seq<string>, b: seq<string>)
    ensures Clean(a + b) == Clean(a) + Clean(b)
  {
    if a == [] {
      assert a + b == b;
    } else {
      assert (a + b)[0] == a[0] && (a + b)[1..] == a[1..] + b;
      CleanConcat(a[1..], b);
    }
  }

  lemma {:induction false} JoinHead(parts: seq<string>)
    requires |parts| >= 1 && parts[0] != ""
    ensures Join(parts) != "" && Join(parts)[0] == parts[0][0]
  {
  }

  lemma {:induction false} JoinSegmentsNoEdgeSep(segs: seq<Segment>)
    requires |segs| >= 1
    ensures Join(segs) != ""
    ensures Join(segs)[0] != Sep && Join(segs)[|Join(segs)| - 1] != Sep
  {
    if |segs| > 1 {
      JoinSegmentsNoEdgeSep(segs[1..]);
    }
  }

  /** Parsing what a path prints gives the path back. */
  lemma ParseStr(p: Path)
    ensures Parse(Str(p)) == p
  {
    CleanSegments(p.segs);
    if p.absolute {
      if p.segs == [] {
        assert SplitOn([Sep]) == [""] + SplitOn([]);
      } else {
        SplitOnJoin(p.segs);
        assert ([Sep] + Join(p.segs))[1..] == Join(p.segs);
        CleanConcat([""], p.segs);
      }
    } else if p.segs == [] {
      SplitOnPlain(".");
    } else {
      SplitOnJoin(p.segs);
      JoinHead(p.segs);
    }
  }

  lemma StripSegment(p: Path, c: Option<Path>)
    requires p.absolute && Container(p) == Ok(c)
    ensures c.Some? ==> Strip(Str(c.value)) == p.segs[0]
    ensures c.None? ==> Strip("") == ""
  {
    if c.Some? {
      var s := p.segs[0];
      assert Str(c.value) == [Sep] + s;
      assert LStrip([Sep] + s) == LStrip(s);
      assert LStrip(s) == s;
      assert s[|s| - 1] in s;
    }
  }

  lemma KeyString(p: Path, k: Option<Path>)
    requires p.absolute && Key(p) == Ok(k)
    ensures k.Some? ==> var s := LStrip(Str(k.value));
      s == Join(p.segs[1..]) && s != "" && s[0] != Sep
  {
    if k.Some? {
      JoinSegmentsNoEdgeSep(k.value.segs);
    }
  }

  // ---------------------------------------------------------------------
  // Properties of the address layer

  /** Decomposition law: the container joined with the key is the path again. */
  lemma ContainerJoinKey(p: Path)
    requires Container(p).Ok? && Container(p).value.Some?
    requires Key(p).value.Some?
    ensures JoinPath(Container(p).value.value, Key(p).value.value) == p
  {
    assert p.segs == [p.segs[0]] + p.segs[1..];
  }

  /** `as_path` of the address of an absolute path is that path. */
  lemma AsPathFromPath(p: Path)
    requires p.absolute
    ensures AsPath(FromPath(p).value) == p
  {
    if p.segs == [] {
      AsPathRoot(p);
    } else if |p.segs| == 1 {
      AsPathContainer(p);
    } else {
      AsPathObject(p);
    }
  }

  lemma AsPathRoot(p: Path)
    requires p.absolute && p.segs == []
    ensures AsPath(FromPath(p).value) == p
  {
    var o := FromPath(p).value;
    CleanSegments(p.segs);
    assert Show(o) == [Sep, Sep];
    assert SplitOn([Sep, Sep]) == [""] + SplitOn([Sep]);
    assert SplitOn([Sep]) == [""] + SplitOn([]);
  }

  lemma AsPathContainer(p: Path)
    requires p.absolute && |p.segs| == 1
    ensures AsPath(FromPath(p).value) == p
  {
    var o := FromPath(p).value;
    CleanSegments(p.segs);
    var c := p.segs[0];
    assert Show(o) == [Sep] + c + [Sep];
    assert [Sep] + c + [Sep] == [] + [Sep] + (c + [Sep] + []);
    SplitOnSep([], c + [Sep] + []);
    SplitOnSep(c, []);
    CleanConcat([""], [c, ""]);
    CleanConcat([c], [""]);
  }

  lemma AsPathObject(p: Path)
    requires p.absolute && |p.segs| > 1
    ensures AsPath(FromPath(p).value) == p
  {
    var o := FromPath(p).value;
    CleanSegments(p.segs);
    var c := p.segs[0];
    var rest := p.segs[1..];
    assert Show(o) == [Sep] + c + [Sep] + Join(rest);
    assert [Sep] + c + [Sep] + Join(rest) == [] + [Sep] + (c + [Sep] + Join(rest));
    SplitOnSep([], c + [Sep] + Join(rest));
    SplitOnSep(c, Join(rest));
    SplitOnJoin(rest);
    CleanConcat([""], [c] + rest);
    assert [c] + rest == p.segs;
  }

  /** Printing an address and parsing the printed path gives the same address. */
  lemma ShowParseRoundTrip(p: Path)
    requires p.absolute
    ensures FromPath(Parse(Show(FromPath(p).value))) == FromPath(p)
  {
    AsPathFromPath(p);
  }

  /** `swift://c/k` denotes the same path as `/c/k`: the authority becomes the first component. */
  lemma UriFoldsAuthority(c: string, k: string)
    requires c != "" && Sep !in c && '?' !in c && '#' !in c && Plain(c) && !OneBracket(c)
    requires '?' !in k && '#' !in k && Plain(k)
    ensures FromUri(Scheme + (c + [Sep] + k)) == Ok(Parse([Sep] + (c + [Sep] + k)))
  {
    FoldedRest(c, k);
    UriPathFolded(c, k);
    ParseDoubleSep(c, k);
  }

  lemma UriPathFolded(c: string, k: string)
    requires c != "" && Sep !in c && '?' !in c && '#' !in c
    requires '?' !in k && '#' !in k
    ensures TakeUntil(c + [Sep] + k, {Sep, '?', '#'}) == c
    ensures UriPath(c + [Sep] + k) == [Sep] + c + [Sep] + ([Sep] + k)
  {
    var rest := c + [Sep] + k;
    assert rest == c + ([Sep] + k);
    TakeUntilPrefix(c, [Sep] + k, {Sep, '?', '#'});
    assert rest[|c|..] == [Sep] + k;
    TakeUntilAll([Sep] + k, {'?', '#'});
    assert Strip(c) == c by {
      assert c[0] in c;
      assert c[|c| - 1] in c;
    }
  }

  lemma FoldedRest(c: string, k: string)
    requires Plain(c) && Plain(k)
    ensures Scheme <= Scheme + (c + [Sep] + k)
    ensures DropUnsafe((Scheme + (c + [Sep] + k))[|Scheme|..]) == c + [Sep] + k
  {
    var rest := c + [Sep] + k;
    assert (Scheme + rest)[|Scheme|..] == rest;
    assert Plain(rest);
  }

  lemma SplitAbs(c: string, x: string)
    requires Sep !in c
    ensures SplitOn([Sep] + c + [Sep] + x) == ["", c] + SplitOn(x)
  {
    assert [Sep] + c + [Sep] + x == [] + [Sep] + (c + [Sep] + x);
    SplitOnSep([], c + [Sep] + x);
    SplitOnSep(c, x);
  }

  /** An empty component between two separators is dropped by parsing. */
  lemma ParseDoubleSep(c: string, k: string)
    requires Sep !in c
    ensures Parse([Sep] + c + [Sep] + ([Sep] + k)) == Parse([Sep] + (c + [Sep] + k))
  {
    assert [Sep] + (c + [Sep] + k) == [Sep] + c + [Sep] + k;
    SplitAbs(c, [Sep] + k);
    SplitAbs(c, k);
    assert [Sep] + k == [] + [Sep] + k;
    SplitOnSep([], k);
    var s := SplitOn(k);
    CleanConcat(["", c], [""] + s);
    CleanConcat([""], s);
    CleanConcat(["", c], s);
  }

  lemma {:induction false} TakeUntilPrefix(a: string, b: string, stops: set<char>)
    requires forall i :: 0 <= i < |a| ==> a[i] !in stops
    requires b != [] && b[0] in stops
    ensures TakeUntil(a + b, stops) == a
  {
    if a != [] {
      assert (a + b)[1..] == a[1..] + b;
      TakeUntilPrefix(a[1..], b, stops);
    }
  }

  lemma {:induction false} TakeUntilAll(a: string, stops: set<char>)
    requires forall i :: 0 <= i < |a| ==> a[i] !in stops
    ensures TakeUntil(a, stops) == a
  {
    if a != [] {
      TakeUntilAll(a[1..], stops);
    }
  }

  /** Every absolute non-root path, written as a swift URI, parses back to itself. */
  lemma UriOfPath(p: Path)
    requires p.absolute && |p.segs| >= 1
    requires forall i :: 0 <= i < |p.segs| ==> '?' !in p.segs[i] && '#' !in p.segs[i] && Plain(p.segs[i])
    requires !OneBracket(p.segs[0])
    ensures FromUri(Scheme + Join(p.segs)) == Ok(p)
  {
    ParseStr(p);
    var c := p.segs[0];
    assert '?' !in c && '#' !in c && Plain(c);
    if |p.segs| == 1 {
      UriOfContainer(c);
      assert Join(p.segs) == c;
      assert Str(p) == [Sep] + c;
    } else {
      NoQueryInJoin(p.segs[1..]);
      var j := Join(p.segs[1..]);
      assert Join(p.segs) == c + [Sep] + j;
      UriFoldsAuthority(c, j);
    }
  }

  lemma UriOfContainer(c: Segment)
    requires '?' !in c && '#' !in c && Plain(c) && !OneBracket(c)
    ensures FromUri(Scheme + c) == Ok(Parse([Sep] + c))
  {
    var uri := Scheme + c;
    assert uri[|Scheme|..] == c;
    assert DropUnsafe(c) == c;
    TakeUntilAll(c, {Sep, '?', '#'});
    assert Strip(c) == c by {
      assert c[0] in c;
      assert c[|c| - 1] in c;
    }
    assert c[|c|..] == "";
    assert UriPath(c) == [Sep] + c;
  }

  lemma {:induction false} NoQueryInJoin(parts: seq<Segment>)
    requires forall i :: 0 <= i < |parts| ==> '?' !in parts[i] && '#' !in parts[i] && Plain(parts[i])
    ensures '?' !in Join(parts) && '#' !in Join(parts) && Plain(Join(parts))
  {
    if |parts| > 1 {
      NoQueryInJoin(parts[1..]);
    }
  }

}
