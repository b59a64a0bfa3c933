/**
 * `SwiftPath.open` and the two file objects it hands back. A write handle
 * collects what is written in a temporary file (the cache) and uploads the
 * whole cache after each `write` and when its `with` block ends normally.
 * A read handle fetches the object's body lazily, reads it in one piece,
 * and keeps what `readlines` collected for later line reads.
 */
module Handles {
  import opened Wrappers
  import opened Paths
  import opened Codec
  import opened Lines
  import opened Units
  import opened Store

  // ---------------------------------------------------------------------
  // open

  /** The modes `open` accepts. */
  const SupportedModes: set<string> := {"r", "br", "rb", "tr", "rt", "w", "wb", "bw", "wt", "tw"}

  /** Which file object `open` builds: the read handle for a mode with 'r', the write handle otherwise. */
  datatype Side = ReadSide | WriteSide

  /** An encoding argument Python counts as given: present and non-empty. */
  predicate Given(encoding: Option<string>) {
    encoding.Some? && encoding.value != ""
  }

  /**
   * The encoding `open` passes on: a text write mode drops it, since its
   * cache is binary anyway.
   */
  function PassedEncoding(mode: string, encoding: Option<string>): Option<string> {
    if 'w' in mode && 'b' !in mode then None else encoding
  }

  /**
   * The write handle's cache can be created. Its temporary file is opened
   * with the write mode plus `+`, which always holds 'b', and `io.open`
   * refuses a binary mode that also holds 't', or that is given an encoding
   * (even an empty one) or a newline argument.
   */
  predicate CacheOpens(mode: string, encoding: Option<string>, newline: Option<string>)
  {
    't' !in WriteMode(TrimPlus(mode)) && encoding.None? && newline.None?
  }

  /**
   * `SwiftPath.open` with the accessor's choice of file object: the checks
   * it makes, in order, which handle it builds, and the write handle's
   * failure to create its cache.
   */
  function Open(p: Path, mode: string, buffering: int, encoding: Option<string>, newline: Option<string>): (r: Result<Side>)
    ensures !p.absolute ==> r == Err(InvalidPath)
    ensures p.absolute ==>
      (r.Ok? <==> mode in SupportedModes && buffering != 0 && buffering != 1 && !('b' in mode && Given(encoding)) &&
                  ('r' in mode || ('t' !in mode && ('b' in mode ==> encoding.None?) && newline.None?)))
    ensures p.absolute && r.Err? ==> r.error == InvalidArgument
    ensures r.Ok? ==> (r.value == ReadSide <==> 'w' !in mode)
    ensures r.Ok? ==> '+' !in mode
    ensures r.Ok? && r.value == WriteSide ==> 't' !in mode && CacheOpens(mode, PassedEncoding(mode, encoding), newline)
  {
    var enc := PassedEncoding(mode, encoding);
    if !p.absolute then Err(InvalidPath)
    else if mode !in SupportedModes then Err(InvalidArgument)
    else if buffering == 0 || buffering == 1 then Err(InvalidArgument)
    else if 'b' in mode && Given(enc) then Err(InvalidArgument)
    else if 'r' in mode then Ok(ReadSide)
    else if !CacheOpens(mode, enc, newline) then Err(InvalidArgument)
    else Ok(WriteSide)
  }

  /**
   * Write modes that pass open's own checks but fail when the cache is
   * created: a text write mode, a binary one with an empty encoding, and any
   * write mode with a newline argument; a plain `w` with an encoding opens.
   */
  lemma CacheRefusals(p: Path, buffering: int, encoding: Option<string>, newline: string)
    requires p.absolute && buffering != 0 && buffering != 1
    ensures Open(p, "wt", buffering, encoding, None) == Err(InvalidArgument)
    ensures Open(p, "tw", buffering, encoding, None) == Err(InvalidArgument)
    ensures Open(p, "wb", buffering, Some(""), None) == Err(InvalidArgument)
    ensures Open(p, "bw", buffering, Some(""), None) == Err(InvalidArgument)
    ensures Open(p, "w", buffering, encoding, Some(newline)) == Err(InvalidArgument)
    ensures Open(p, "w", buffering, encoding, None) == Ok(WriteSide)
    ensures Open(p, "wb", buffering, None, None) == Ok(WriteSide)
  {
    assert TrimPlus("wt") == "wt" && TrimPlus("tw") == "tw" && TrimPlus("w") == "w";
    assert TrimPlus("wb") == "wb" && TrimPlus("bw") == "bw";
    assert 't' in WriteMode("wt") && 't' in WriteMode("tw") && 't' !in WriteMode("w");
    assert 't' !in WriteMode("wb") && 't' !in WriteMode("bw");
  }

  /** `mode.rstrip("+")` */
  function TrimPlus(s: string): (r: string)
    ensures r <= s && (r != [] ==> r[|r| - 1] != '+')
  {
    if s != [] && s[|s| - 1] == '+' then TrimPlus(s[..|s| - 1]) else s
  }

  // ---------------------------------------------------------------------
  // The write handle

  const NewLine: byte := 10

  /**
   * The mode the write handle reports: that of its cache, a temporary file
   * opened `wb+` (or `bw+`), which a raw file object reports as `rb+`.
   */
  const CacheMode: string := "rb+"

  /** `b"\n".join(parts)` */
  function JoinBytes(parts: seq<seq<byte>>): seq<byte> {
    if parts == [] then []
    else if |parts| == 1 then parts[0]
    else parts[0] + [NewLine] + JoinBytes(parts[1..])
  }

  function EncodeEach(ds: seq<Data>): (r: seq<seq<byte>>)
    ensures |r| == |ds| && forall j :: 0 <= j < |ds| ==> r[j] == Encode(ds[j])
  {
    seq(|ds|, j requires 0 <= j < |ds| => Encode(ds[j]))
  }

  /** The parts, one after another. */
  function Glue(parts: seq<seq<byte>>): seq<byte> {
    if parts == [] then [] else parts[0] + Glue(parts[1..])
  }

  /**
   * `readlines()` on a binary file: every line keeps its `\n`; only the last
   * may have none. Each byte starts a line of its own or joins the line
   * after it, unless it is a `\n`, which ends its line.
   */
  function KeepEnds(b: seq<byte>): seq<seq<byte>>
    decreases |b|
  {
    if b == [] then []
    else
      var rest := KeepEnds(b[1..]);
      if b[0] == NewLine || rest == [] then [[b[0]]] + rest
      else [[b[0]] + rest[0]] + rest[1..]
  }

  /** `readline()` on a binary file: up to and including the first `\n`. */
  function FirstLine(b: seq<byte>): seq<byte> {
    if b == [] then [] else KeepEnds(b)[0]
  }

  lemma GlueCons(x: seq<byte>, parts: seq<seq<byte>>)
    ensures Glue([x] + parts) == x + Glue(parts)
  {
    assert ([x] + parts)[1..] == parts;
  }

  /** The lines `readlines` returns make up the file: nothing is lost or added. */
  lemma {:induction false} KeepEndsGlue(b: seq<byte>)
    ensures Glue(KeepEnds(b)) == b
    decreases |b|
  {
    if b != [] {
      var rest := KeepEnds(b[1..]);
      KeepEndsGlue(b[1..]);
      if b[0] == NewLine || rest == [] {
        GlueCons([b[0]], rest);
      } else {
        GlueCons([b[0]] + rest[0], rest[1..]);
        GlueCons(rest[0], rest[1..]);
        assert rest == [rest[0]] + rest[1..];
      }
      assert b == [b[0]] + b[1..];
    }
  }

  /** A line of `readlines` other than the last: it ends with its only `\n`. */
  predicate EndedLine(l: seq<byte>) {
    l != [] && l[|l| - 1] == NewLine && NewLine !in l[..|l| - 1]
  }

  /** Each line `readlines` returns is non-empty, and each but the last ends with its only `\n`. */
  lemma {:induction false} KeepEndsShape(b: seq<byte>)
    ensures forall j :: 0 <= j < |KeepEnds(b)| ==> KeepEnds(b)[j] != []
    ensures forall j :: 0 <= j < |KeepEnds(b)| - 1 ==> EndedLine(KeepEnds(b)[j])
    decreases |b|
  {
    if b != [] {
      var rest := KeepEnds(b[1..]);
      KeepEndsShape(b[1..]);
      if !(b[0] == NewLine || rest == []) && |rest| > 1 {
        var l := [b[0]] + rest[0];
        assert EndedLine(rest[0]);
        assert l[..|l| - 1] == [b[0]] + rest[0][..|rest[0]| - 1];
      }
    }
  }

  /** A non-empty run without `\n` is a single line. */
  lemma {:induction false} KeepEndsSingle(l: seq<byte>)
    requires l != [] && NewLine !in l
    ensures KeepEnds(l) == [l]
    decreases |l|
  {
    assert l[0] in l;
    var rest := KeepEnds(l[1..]);
    if |l| > 1 {
      assert forall x :: x in l[1..] ==> x in l;
      KeepEndsSingle(l[1..]);
      assert KeepEnds(l) == [[l[0]] + rest[0]] + rest[1..];
      assert [l[0]] + l[1..] == l;
    } else {
      assert l[1..] == [] && rest == [];
      assert KeepEnds(l) == [[l[0]]] && l == [l[0]];
    }
  }

  /** A line without `\n`, then `\n`, then more: the first line is the line with its `\n`. */
  lemma {:induction false} KeepEndsAfter(l: seq<byte>, rest: seq<byte>)
    requires NewLine !in l
    ensures KeepEnds(l + [NewLine] + rest) == [l + [NewLine]] + KeepEnds(rest)
    decreases |l|
  {
    var b := l + [NewLine] + rest;
    if l == [] {
      assert b[1..] == rest && b[0] == NewLine && l + [NewLine] == [NewLine];
    } else {
      assert l[0] in l && b[0] == l[0];
      assert forall x :: x in l[1..] ==> x in l;
      assert b[1..] == l[1..] + [NewLine] + rest;
      KeepEndsAfter(l[1..], rest);
      assert [l[0]] + (l[1..] + [NewLine]) == l + [NewLine];
    }
  }

  /** The lines as `readlines` sees them after `writelines`: each but the last followed by `\n`. */
  function Terminated(lines: seq<seq<byte>>): seq<seq<byte>> {
    if |lines| <= 1 then lines
    else [lines[0] + [NewLine]] + Terminated(lines[1..])
  }

  /** What `writelines` joined, `readlines` reads back, each line but the last with its `\n`. */
  lemma {:induction false} KeepEndsJoin(lines: seq<seq<byte>>)
    requires forall j :: 0 <= j < |lines| ==> NewLine !in lines[j]
    requires lines != [] ==> lines[|lines| - 1] != []
    ensures KeepEnds(JoinBytes(lines)) == Terminated(lines)
  {
    if |lines| == 1 {
      KeepEndsSingle(lines[0]);
    } else if |lines| > 1 {
      KeepEndsAfter(lines[0], JoinBytes(lines[1..]));
      KeepEndsJoin(lines[1..]);
    }
  }

  class WriteHandle {
    const store: Store
    const address: ObjectPath
    /** The mode `open` was given, without trailing `+`. */
    const openMode: string
    /** The cache's bytes. */
    var cache: seq<byte>
    /** The cache's file position. */
    var pos: nat

    /** The position rests at the end of the cache: every operation either leaves it there or does not move it. */
    predicate Valid()
      reads this
    {
      pos == |cache|
    }

    /** A handle is only built by `open`, which has rejected relative paths and the arguments with which the cache cannot be created. */
    constructor(store: Store, p: Path, mode: string, encoding: Option<string>, newline: Option<string>)
      requires p.absolute && CacheOpens(mode, encoding, newline)
      ensures Valid() && cache == []
      ensures this.store == store && address == FromPath(p).value && openMode == TrimPlus(mode)
    {
      this.store := store;
      address := FromPath(p).value;
      openMode := TrimPlus(mode);
      cache := [];
      pos := 0;
    }

    /** `mode`: the cache's mode. */
    function Mode(): string {
      CacheMode
    }

    /** `writable()` as written: it asks the cache's mode, which has no 'w'. */
    function WritableAsWritten(): (b: bool)
      ensures !b
    {
      'w' in Mode()
    }

    /** `writable()` as intended: it asks the mode the handle was opened with. */
    function Writable(): (b: bool)
      reads this
      ensures openMode in SupportedModes && 'r' !in openMode ==> b
    {
      'w' in openMode
    }

    /** `readable()` off Windows: the cache's mode has '+'. */
    function Readable(): (b: bool)
      ensures b
    {
      '+' in Mode()
    }

    /** The store holds this handle's object with exactly the cache's bytes. */
    predicate Uploaded()
      reads this, store
    {
      store.Stored(address.container, address.key)
      && store.objects[address.container][address.key.value] == Obj(cache, "", map[])
    }

    /** The store is `before` with this handle's object replaced by the cache. */
    ghost predicate PutDone(before: map<string, map<string, Obj>>)
      reads this, store
    {
      address.key.Some? && address.container in before
      && store.objects == before[address.container := before[address.container][address.key.value := Obj(cache, "", map[])]]
    }

    /** The upload was refused and the store is still `before`. */
    ghost predicate PutFailed(before: map<string, map<string, Obj>>)
      reads this, store
    {
      !(address.key.Some? && address.container in before) && store.objects == before
    }

    /** `_write_cache`: upload the whole cache in place of the object and return the size written so far. */
    method Upload() returns (r: Result<nat>)
      requires Valid()
      modifies this, store
      ensures Valid() && cache == old(cache)
      ensures r.Ok? ==> r.value == |cache| && PutDone(old(store.objects)) && Uploaded()
      ensures r.Err? ==> r.error == ClientError && PutFailed(old(store.objects))
      ensures store.meta == old(store.meta)
    {
      var size := pos;
      pos := 0;
      var put := store.PutObject(address.container, address.key, cache, "", map[]);
      // Sending the cache reads it to its end.
      pos := |cache|;
      if put.Err? {
        return Err(put.error);
      }
      return Ok(size);
    }

    /** `write(s)`: append the encoded payload to the cache, then upload the whole cache. */
    method Write(d: Data) returns (r: Result<nat>)
      requires Valid()
      modifies this, store
      ensures Valid() && cache == old(cache) + Encode(d)
      ensures r.Ok? ==> r.value == |cache| && PutDone(old(store.objects)) && Uploaded()
      ensures r.Err? ==> r.error == ClientError && PutFailed(old(store.objects))
      ensures store.meta == old(store.meta)
    {
      var bytes := Encode(d);
      cache := cache[..pos] + bytes;
      pos := pos + |bytes|;
      r := Upload();
    }

    /** `writelines(lines)`: append the encoded lines joined by `\n`, with no `\n` after the last; nothing is uploaded. */
    method Writelines(lines: seq<Data>)
      requires Valid()
      modifies this
      ensures Valid() && cache == old(cache) + JoinBytes(EncodeEach(lines))
    {
      var joined := JoinBytes(EncodeEach(lines));
      cache := cache[..pos] + joined;
      pos := pos + |joined|;
    }

    /** `__exit__`: upload the cache once more, unless the block ended with an exception. */
    method Exit(normal: bool) returns (r: Result<()>)
      requires Valid()
      modifies this, store
      ensures Valid() && cache == old(cache)
      ensures !normal ==> r.Ok? && store.objects == old(store.objects)
      ensures normal && r.Ok? ==> PutDone(old(store.objects)) && Uploaded()
      ensures normal && r.Err? ==> r.error == ClientError && PutFailed(old(store.objects))
      ensures store.meta == old(store.meta)
    {
      if !normal {
        return Ok(());
      }
      var put := Upload();
      if put.Err? {
        return Err(put.error);
      }
      return Ok(());
    }

    /** `read()`: rewind and read the whole cache, as bytes since the cache's mode has 'b'. */
    method Read() returns (r: Data)
      requires Valid()
      modifies this
      ensures Valid() && cache == old(cache)
      ensures r == Bytes(cache)
    {
      pos := 0;
      var all := cache[pos..];
      pos := |cache|;
      r := Decode(Bytes(all), Mode()).value;
    }

    /** `readline()`: read one line from the current position, which is the end, so the line is empty. */
    method Readline() returns (r: Data)
      requires Valid()
      modifies this
      ensures Valid() && cache == old(cache)
      ensures r == Bytes([])
    {
      var line := FirstLine(cache[pos..]);
      pos := pos + |line|;
      r := Decode(Bytes(line), Mode()).value;
    }

    /** `readlines()`: rewind and read the cache's lines, each keeping its `\n`. */
    method Readlines() returns (r: seq<Data>)
      requires Valid()
      modifies this
      ensures Valid() && cache == old(cache)
      ensures |r| == |KeepEnds(cache)| && forall j :: 0 <= j < |r| ==> r[j] == Bytes(KeepEnds(cache)[j])
    {
      pos := 0;
      var lines := KeepEnds(cache[pos..]);
      pos := |cache|;
      r := seq(|lines|, j requires 0 <= j < |lines| => Decode(Bytes(lines[j]), Mode()).value);
    }
  }

  /** A write handle that `open` built says it is not writable, though `write` works on it. */
  lemma WriteHandleNotWritable(h: WriteHandle)
    requires h.openMode in SupportedModes && 'r' !in h.openMode
    ensures !h.WritableAsWritten() && h.Writable()
  {
  }

  // ---------------------------------------------------------------------
  // The read handle

  /** The kind of payload a mode reads: bytes with 'b', text otherwise. */
  function ModeKind(mode: string): (k: Kind)
    ensures k == KindOf(Empty(mode))
  {
    if 'b' in mode then BytesKind else TextKind
  }

  /** The first element, or `e` when there is none. */
  function FirstOr(xs: seq<Data>, e: Data): Data {
    if xs == [] then e else xs[0]
  }

  /** `chunks` are the successive slices of `d`, `n` units wide (all of `d` at once when `n <= 0`). */
  predicate SlicesOf(d: Data, n: int, chunks: seq<Data>) {
    (forall j :: 0 <= j < |chunks| ==> KindOf(chunks[j]) == KindOf(d))
    && IsSlicing(UnitsOf(d), Width(Size(d), Some(n)), UnitsEach(chunks))
  }

  /** What reading the stream through `iter_content` gives, from the decoded rest of the body. */
  predicate StreamChunks(d: Result<Data>, r: Result<seq<Data>>, consumed: bool) {
    (d.Err? ==> r == Err(DecodeFailure) && !consumed)
    && (d.Ok? ==> consumed && r == Ok(if Size(d.value) == 0 then [] else [d.value]))
  }

  class ReadHandle {
    const store: Store
    const address: ObjectPath
    const mode: string
    /** `_content`: what `readlines` last collected. */
    var content: Data
    /** `_streaming_body`: None until fetched, then what is left of the body. */
    var body: Option<seq<byte>>
    /** `_content_consumed`: the stream has been read to its end. */
    var consumed: bool

    /** The cached content is of the mode's kind; a consumed stream was opened by a readable handle. */
    predicate Valid()
      reads this
    {
      KindOf(content) == ModeKind(mode) && (consumed ==> 'r' in mode && body.Some?)
    }

    /** A handle is only built by `open`, which has rejected relative paths. */
    constructor(store: Store, p: Path, mode: string)
      requires p.absolute
      ensures Valid() && this.store == store && address == FromPath(p).value && this.mode == mode
      ensures content == Empty(mode) && body == None && !consumed
    {
      this.store := store;
      address := FromPath(p).value;
      this.mode := mode;
      content := Empty(mode);
      body := None;
      consumed := false;
    }

    /** `readable()` holds: the mode reads, and the body is open or can be fetched. */
    predicate CanRead()
      reads this, store
    {
      'r' in mode && (body.Some? || store.Stored(address.container, address.key))
    }

    /** What is left of the body once `readable()` has opened it. */
    function Rest(): seq<byte>
      reads this, store
      requires CanRead()
    {
      if body.Some? then body.value else store.GetObject(address.container, address.key).value.1
    }

    /** `readable()`: fetch the body on first use; a failed fetch is suppressed and reads as false. */
    method Readable() returns (b: bool)
      modifies this
      ensures b == old(CanRead())
      ensures body == (if b then Some(old(Rest())) else old(body))
      ensures content == old(content) && consumed == old(consumed)
    {
      if 'r' !in mode {
        return false;
      }
      if body.None? {
        var got := store.GetObject(address.container, address.key);
        if got.Err? {
          return false;
        }
        body := Some(got.value.1);
      }
      return true;
    }

    /** `read(n)`: the whole rest of the body, whatever `n` is, decoded for the mode. */
    method Read(n: int) returns (r: Result<Data>)
      modifies this
      ensures !old(CanRead()) ==> r == Err(Unsupported) && body == old(body)
      ensures old(CanRead()) ==> r == Decode(Bytes(old(Rest())), mode) && body == Some([])
      ensures content == old(content) && consumed == old(consumed)
    {
      var ok := Readable();
      if !ok {
        return Err(Unsupported);
      }
      var result := body.value;
      body := Some([]);
      r := Decode(Bytes(result), mode);
    }

    /**
     * `iter_content(chunk_size)`, collected into a list: slices of the
     * cached content once the stream is consumed, otherwise what reading
     * the stream until an empty read gives.
     */
    method IterContent(chunkSize: int) returns (r: Result<seq<Data>>)
      requires Valid()
      modifies this
      ensures Valid() && content == old(content)
      ensures old(consumed) ==> r.Ok? && SlicesOf(content, chunkSize, r.value) && body == old(body) && consumed
      ensures !old(consumed) && !old(CanRead()) ==> r == Err(Unsupported) && body == old(body) && !consumed
      ensures !old(consumed) && old(CanRead()) ==>
        body == Some([]) && StreamChunks(Decode(Bytes(old(Rest())), mode), r, consumed)
    {
      if consumed {
        var k := KindOf(content);
        var slices := IterSlices(UnitsOf(content), Some(chunkSize));
        SlicesAreUnits(k, UnitsOf(content), Width(Size(content), Some(chunkSize)), slices);
        var chunks := seq(|slices|, j requires 0 <= j < |slices| => DataOf(k, slices[j]));
        assert UnitsEach(chunks) == slices;
        return Ok(chunks);
      }
      var first := Read(chunkSize);
      if first.Err? {
        return Err(first.error);
      }
      if Size(first.value) == 0 {
        consumed := true;
        return Ok([]);
      }
      var second := Read(chunkSize);
      // The body is drained, so this read is empty and the loop stops.
      assert second == Ok(Empty(mode));
      consumed := true;
      r := Ok([first.value]);
    }

    /**
     * `readlines()`: collect `iter_content(512)` into the cached content
     * and return its lines; the stream counts as consumed afterwards.
     */
    method Readlines() returns (r: Result<seq<Data>>)
      requires Valid()
      modifies this
      ensures Valid()
      ensures !old(CanRead()) ==>
        r == Err(Unsupported) && body == old(body) && content == old(content) && consumed == old(consumed)
      ensures old(CanRead()) && old(consumed) ==>
        r == Ok(DataLines(content)) && content == old(content) && body == old(body) && consumed
      ensures old(CanRead()) && !old(consumed) ==>
        body == Some([]) &&
        var d := Decode(Bytes(old(Rest())), mode);
        (d.Err? ==> r == Err(DecodeFailure) && content == old(content) && !consumed)
        && (d.Ok? ==> r == Ok(DataLines(d.value)) && content == d.value && consumed)
    {
      var ok := Readable();
      if !ok {
        return Err(Unsupported);
      }
      var joinStr := Empty(mode);
      ghost var before := content;
      var chunks := IterContent(512);
      if chunks.Err? {
        return Err(chunks.error);
      }
      var joined := Concat(ModeKind(mode), chunks.value);
      content := if Size(joined) == 0 then joinStr else joined;
      consumed := true;
      JoinedChunks(before, chunks.value, joined, content);
      r := Ok(DataLines(content));
    }

    /** `readline()`: the first line a fresh `iter_lines()` yields, or the empty payload when it yields none. */
    method Readline() returns (r: Result<Data>)
      requires Valid()
      modifies this
      ensures Valid() && content == old(content)
      ensures !old(CanRead()) ==> r == Err(Unsupported) && body == old(body) && consumed == old(consumed)
      ensures old(CanRead()) && old(consumed) ==>
        r == Ok(FirstOr(DataLines(content), Empty(mode))) && body == old(body) && consumed
      ensures old(CanRead()) && !old(consumed) ==>
        body == Some([]) &&
        var d := Decode(Bytes(old(Rest())), mode);
        (d.Err? ==> r == Ok(Empty(mode)) && !consumed)
        && (d.Ok? ==> r == Ok(FirstOr(DataLines(d.value), Empty(mode)))
                      && (consumed <==> NoBreak(UnitsOf(d.value), ModeKind(mode))))
    {
      var ok := Readable();
      if !ok {
        return Err(Unsupported);
      }
      if consumed {
        r := CachedLine();
      } else {
        r := StreamLine();
      }
    }

    /** The first line of `iter_lines()` over the cached content's 512-unit slices. */
    method CachedLine() returns (r: Result<Data>)
      requires Valid() && consumed
      modifies this
      ensures Valid() && content == old(content) && body == old(body) && consumed
      ensures r == Ok(FirstOr(DataLines(content), Empty(mode)))
    {
      var chunks := IterContent(512);
      var k := KindOf(content);
      var units := UnitsEach(chunks.value);
      var out := IterLines(units, k);
      IterLinesFirstLine(units, k);
      LinesAreUnits(UnitsOf(content), k);
      if out == [] {
        r := Ok(Empty(mode));
      } else {
        r := Ok(DataOf(k, out[0]));
        SameUnits(DataOf(k, out[0]), DataLines(content)[0]);
      }
    }

    /**
     * The first line of `iter_lines()` over the stream: the first chunk is
     * the whole rest of the body; when all of it is held back as a pending
     * line, a second read drains the stream and marks it consumed. A decode
     * failure is caught and reads as the empty payload.
     */
    method StreamLine() returns (r: Result<Data>)
      requires Valid() && !consumed && 'r' in mode && body.Some?
      modifies this
      ensures Valid() && content == old(content) && body == Some([])
      ensures var d := Decode(Bytes(old(body).value), mode);
        (d.Err? ==> r == Ok(Empty(mode)) && !consumed)
        && (d.Ok? ==> r == Ok(FirstOr(DataLines(d.value), Empty(mode)))
                      && (consumed <==> NoBreak(UnitsOf(d.value), ModeKind(mode))))
    {
      var first := Read(512);
      if first.Err? {
        return Ok(Empty(mode));
      }
      var d := first.value;
      if Size(d) == 0 {
        consumed := true;
        return Ok(Empty(mode));
      }
      var k := KindOf(d);
      var u := UnitsOf(d);
      var lines, next := CarryChunk(None, u, k);
      StreamFirst(u, k);
      LinesAreUnits(u, k);
      if lines != [] {
        r := Ok(DataOf(k, lines[0]));
      } else {
        var second := Read(512);
        // The body is drained, so this read is empty and the stream ends.
        assert second == Ok(Empty(mode));
        consumed := true;
        r := Ok(DataOf(k, next.value));
      }
      SameUnits(r.value, DataLines(d)[0]);
    }

    /** `write(s)`: a read handle refuses it. */
    function Write(d: Data): (r: Result<nat>)
      ensures r.Err? && r.error == Unsupported
    {
      Err(Unsupported)
    }

    /** `writelines(lines)`: a read handle refuses it. */
    function Writelines(lines: seq<Data>): (r: Result<()>)
      ensures r.Err? && r.error == Unsupported
    {
      Err(Unsupported)
    }

    /** `writable()` */
    function Writable(): (b: bool)
      ensures !b
    {
      false
    }
  }

  /** What `readlines` stores: the cached content again, or the decoded stream. */
  lemma JoinedChunks(before: Data, chunks: seq<Data>, joined: Data, content: Data)
    requires forall j :: 0 <= j < |chunks| ==> KindOf(chunks[j]) == KindOf(joined)
    requires UnitsOf(joined) == Flatten(UnitsEach(chunks))
    requires content == (if Size(joined) == 0 then EmptyOf(KindOf(joined)) else joined)
    ensures chunks == [] ==> content == EmptyOf(KindOf(joined))
    ensures |chunks| == 1 && Size(chunks[0]) != 0 ==> content == chunks[0]
    ensures KindOf(before) == KindOf(joined) && IsSlicing(UnitsOf(before), Width(Size(before), Some(512)), UnitsEach(chunks))
      ==> content == before
  {
    if |chunks| == 1 {
      assert UnitsEach(chunks) == [UnitsOf(chunks[0])];
      assert Flatten(UnitsEach(chunks)) == UnitsOf(chunks[0]) + Flatten([]);
      SameUnits(joined, chunks[0]);
    }
    if KindOf(before) == KindOf(joined) && IsSlicing(UnitsOf(before), Width(Size(before), Some(512)), UnitsEach(chunks)) {
      SameUnits(content, before);
    }
  }

  /** The first round of `iter_lines` over a non-empty stream read in one piece. */
  lemma StreamFirst(u: seq<int>, k: Kind)
    requires u != []
    ensures SplitLines(u, k) != []
    ensures var (lines, next) := CarryStep(None, u, k);
      (lines != [] ==> lines[0] == SplitLines(u, k)[0])
      && (lines == [] ==> next == Some(u) && SplitLines(u, k) == [u])
      && (lines == [] <==> NoBreak(u, k))
  {
    var (lines, next) := CarryStep(None, u, k);
    assert Held(None) + u == u;
    CarryFirst(None, u, k);
    if lines != [] {
      FirstLineOfConcat(u, [], k);
      assert u + [] == u;
    } else {
      SplitLinesSingle(u, k);
    }
  }
}
