/**
 * The object store behind the path layer: an account of named containers,
 * each a flat map from keys to objects.
 *
 * This stands for the Swift client connection. Each member mirrors one client
 * call the path layer makes; a call the client would answer with a
 * ClientException reports `Err(ClientError)` here. In particular a call that
 * names no object (a key of None) fails the way a missing object does.
 */
module Store {
  import opened Wrappers
  import opened Codec
  import opened Paths

  type Headers = map<string, string>

  /** A stored object: its bytes, its content type and its metadata headers. */
  datatype Obj = Obj(data: seq<byte>, contentType: string, headers: Headers)

  /** One row of a container listing: a collapsed prefix, or an object. */
  datatype Entry =
    | SubdirEntry(subdir: string)
    | ObjectEntry(name: string, bytes: nat, contentType: string)

  /** The decimal text of a number, as Swift writes a content length. */
  function Decimal(n: nat): (r: string)
    ensures r != []
    ensures forall i :: 0 <= i < |r| ==> '0' <= r[i] <= '9'
  {
    var d := "0123456789"[n % 10];
    if n < 10 then [d] else Decimal(n / 10) + [d]
  }

  /** The headers a HEAD request on an object answers with. */
  function HeadersOf(o: Obj): Headers
  {
    o.headers["content-length" := Decimal(|o.data|)]["content-type" := o.contentType]
  }

  /**
   * The listing row of `key` under `prefix`. With a delimiter, a key whose
   * remainder after the prefix holds the delimiter shows only as the prefix
   * up to and including the first such delimiter.
   */
  function EntryOf(prefix: string, delimiter: Option<char>, key: string, o: Obj): Entry
    requires prefix <= key
  {
    var rest := key[|prefix|..];
    if delimiter.Some? && delimiter.value in rest then
      SubdirEntry(prefix + TakeUntil(rest, {delimiter.value}) + [delimiter.value])
    else
      ObjectEntry(key, |o.data|, o.contentType)
  }

  predicate Distinct<T(==)>(s: seq<T>) {
    forall i, j :: 0 <= i < j < |s| ==> s[i] != s[j]
  }

  /** Lists the elements of a finite set once each, in no particular order. */
  method Enumerate<T(==)>(s: set<T>) returns (r: seq<T>)
    ensures forall x :: x in r <==> x in s
    ensures Distinct(r)
  {
    r := [];
    var rest := s;
    while rest != {}
      invariant forall x :: x in s <==> x in r || x in rest
      invariant forall x :: x in r ==> x !in rest
      invariant Distinct(r)
      decreases rest
    {
      var x :| x in rest;
      r := r + [x];
      rest := rest - {x};
    }
  }

  class Store {
    /** Objects by container name, then by key. */
    var objects: map<string, map<string, Obj>>
    /** The response headers that come with a listing of each container. */
    var meta: map<string, Headers>

    constructor(objects: map<string, map<string, Obj>>, meta: map<string, Headers>)
      ensures this.objects == objects && this.meta == meta
    {
      this.objects := objects;
      this.meta := meta;
    }

    /** An object is stored under exactly this container and key. */
    predicate Stored(container: string, key: Option<string>)
      reads this
    {
      key.Some? && container in objects && key.value in objects[container]
    }

    /**
     * The headers of a listing of `container`. Swift always answers a
     * listing with a content length; where the stored headers carry none,
     * the model answers "0".
     */
    function ContainerMeta(container: string): (r: Headers)
      reads this
      ensures "content-length" in r
      ensures forall h :: container in meta && h in meta[container] ==> h in r && r[h] == meta[container][h]
      ensures (container !in meta || "content-length" !in meta[container]) ==> r["content-length"] == "0"
    {
      var h := if container in meta then meta[container] else map[];
      if "content-length" in h then h else h["content-length" := "0"]
    }

    /** `head_object(container, key)` */
    function HeadObject(container: string, key: Option<string>): (r: Result<Headers>)
      reads this
      ensures r.Ok? <==> Stored(container, key)
      ensures r.Err? ==> r.error == ClientError
      ensures r.Ok? ==> "content-type" in r.value && r.value["content-type"] == objects[container][key.value].contentType
      ensures r.Ok? ==> "content-length" in r.value && r.value["content-length"] == Decimal(|objects[container][key.value].data|)
    {
      if Stored(container, key) then Ok(HeadersOf(objects[container][key.value]))
      else Err(ClientError)
    }

    /** `get_object(container, key)`: the object's headers and its whole body. */
    function GetObject(container: string, key: Option<string>): (r: Result<(Headers, seq<byte>)>)
      reads this
      ensures r.Ok? <==> Stored(container, key)
      ensures r.Err? ==> r.error == ClientError
      ensures r.Ok? ==> HeadObject(container, key) == Ok(r.value.0)
      ensures r.Ok? ==> r.value.1 == objects[container][key.value].data
    {
      if Stored(container, key) then
        var o := objects[container][key.value];
        Ok((HeadersOf(o), o.data))
      else Err(ClientError)
    }

    /** `get_container(container, prefix, delimiter)`, with the rows as a set. */
    function Listing(container: string, prefix: string, delimiter: Option<char>): (r: Result<(Headers, set<Entry>)>)
      reads this
      ensures r.Err? <==> container !in objects
      ensures r.Err? ==> r.error == ClientError
      ensures r.Ok? ==> r.value.0 == ContainerMeta(container)
    {
      if container !in objects then Err(ClientError)
      else
        var keys := objects[container];
        Ok((ContainerMeta(container), set k | k in keys && prefix <= k :: EntryOf(prefix, delimiter, k, keys[k])))
    }

    /** `get_container(container, prefix, delimiter)`: the rows as the list the client returns. */
    method GetContainer(container: string, prefix: string, delimiter: Option<char>)
      returns (r: Result<(Headers, seq<Entry>)>)
      ensures r.Err? <==> container !in objects
      ensures r.Err? ==> r.error == ClientError
      ensures r.Ok? ==> r.value.0 == ContainerMeta(container)
      ensures r.Ok? ==> forall e :: e in r.value.1 <==> e in Listing(container, prefix, delimiter).value.1
      ensures r.Ok? ==> Distinct(r.value.1)
    {
      var l := Listing(container, prefix, delimiter);
      if l.Err? {
        return Err(l.error);
      }
      var rows := Enumerate(l.value.1);
      r := Ok((l.value.0, rows));
    }

    /** `get_account()`: the names of the containers. */
    method GetAccount() returns (names: seq<string>)
      ensures forall c :: c in names <==> c in objects
      ensures Distinct(names)
    {
      names := Enumerate(objects.Keys);
    }

    /** `put_object(container, key, data, content_type, headers)`: a full replace. */
    method PutObject(container: string, key: Option<string>, data: seq<byte>, contentType: string, headers: Headers)
      returns (r: Result<()>)
      modifies this
      ensures r.Ok? <==> key.Some? && container in old(objects)
      ensures r.Err? ==> r.error == ClientError && objects == old(objects)
      ensures r.Ok? ==> objects == old(objects)[container := old(objects)[container][key.value := Obj(data, contentType, headers)]]
      ensures meta == old(meta)
    {
      if key.None? || container !in objects {
        return Err(ClientError);
      }
      objects := objects[container := objects[container][key.value := Obj(data, contentType, headers)]];
      r := Ok(());
    }

    /** `post_object(container, key, headers)`: the given headers are set on the object. */
    method PostObject(container: string, key: Option<string>, headers: Headers) returns (r: Result<()>)
      modifies this
      ensures r.Ok? <==> old(Stored(container, key))
      ensures r.Err? ==> r.error == ClientError && objects == old(objects)
      ensures r.Ok? ==>
        var o := old(objects)[container][key.value];
        objects == old(objects)[container := old(objects)[container][key.value := o.(headers := o.headers + headers)]]
      ensures meta == old(meta)
    {
      if !Stored(container, key) {
        return Err(ClientError);
      }
      var o := objects[container][key.value];
      objects := objects[container := objects[container][key.value := o.(headers := o.headers + headers)]];
      r := Ok(());
    }

    /** `copy_object(container, key, destination)` with the destination written "/container/key". */
    method CopyObject(container: string, key: Option<string>, destination: string) returns (r: Result<()>)
      modifies this
      ensures r.Ok? <==> old(Stored(container, key)) && Destination(destination).Some?
                         && Destination(destination).value.0 in old(objects)
      ensures r.Err? ==> r.error == ClientError && objects == old(objects)
      ensures r.Ok? ==>
        var (c, k) := Destination(destination).value;
        objects == old(objects)[c := old(objects)[c][k := old(objects)[container][key.value]]]
      ensures meta == old(meta)
    {
      var d := Destination(destination);
      if !Stored(container, key) || d.None? || d.value.0 !in objects {
        return Err(ClientError);
      }
      var (c, k) := d.value;
      objects := objects[c := objects[c][k := objects[container][key.value]]];
      r := Ok(());
    }

    /** `delete_object(container, key)` */
    method DeleteObject(container: string, key: Option<string>) returns (r: Result<()>)
      modifies this
      ensures r.Ok? <==> old(Stored(container, key))
      ensures r.Err? ==> r.error == ClientError && objects == old(objects)
      ensures r.Ok? ==> objects == old(objects)[container := old(objects)[container] - {key.value}]
      ensures meta == old(meta)
    {
      if !Stored(container, key) {
        return Err(ClientError);
      }
      objects := objects[container := objects[container] - {key.value}];
      r := Ok(());
    }

    /** `put_container(container)`: creates an empty container; an existing one is refused. */
    method PutContainer(container: string) returns (r: Result<()>)
      modifies this
      ensures r.Ok? <==> container != "" && container !in old(objects)
      ensures r.Err? ==> r.error == ClientError && objects == old(objects) && meta == old(meta)
      ensures r.Ok? ==> objects == old(objects)[container := map[]] && meta == old(meta)[container := map[]]
    {
      if container == "" || container in objects {
        return Err(ClientError);
      }
      objects := objects[container := map[]];
      meta := meta[container := map[]];
      r := Ok(());
    }
  }

  /**
   * The (container, key) a copy destination names: a leading separator, a
   * non-empty container name, a separator, and a non-empty key.
   */
  function Destination(d: string): (r: Option<(string, string)>)
    ensures r.Some? ==> r.value.0 != "" && Sep !in r.value.0 && r.value.1 != ""
    ensures r.Some? ==> d == [Sep] + r.value.0 + [Sep] + r.value.1
  {
    if |d| == 0 || d[0] != Sep then None
    else
      var rest := d[1..];
      var c := TakeUntil(rest, {Sep});
      if c == "" || |rest| <= |c| + 1 then None
      else
        assert c + rest[|c|..] == rest;
        assert rest[|c|] == Sep;
        Some((c, rest[|c| + 1..]))
  }

  // ---------------------------------------------------------------------
  // The listing rule

  /** Every key under the prefix shows in the listing, through its own row. */
  lemma ListingShowsKey(s: Store, container: string, prefix: string, delimiter: Option<char>, key: string)
    requires container in s.objects && key in s.objects[container] && prefix <= key
    ensures EntryOf(prefix, delimiter, key, s.objects[container][key]) in s.Listing(container, prefix, delimiter).value.1
  {
  }

  /** Every row of the listing comes from some key under the prefix. */
  lemma ListingRowFromKey(s: Store, container: string, prefix: string, delimiter: Option<char>, e: Entry)
    requires container in s.objects
    requires e in s.Listing(container, prefix, delimiter).value.1
    ensures exists k :: k in s.objects[container] && prefix <= k && e == EntryOf(prefix, delimiter, k, s.objects[container][k])
  {
  }

  /** Without a delimiter the listing is exactly the objects whose keys start with the prefix. */
  lemma ListingFlat(s: Store, container: string, prefix: string, e: Entry)
    requires container in s.objects
    ensures e in s.Listing(container, prefix, None).value.1 <==>
      e.ObjectEntry? && e.name in s.objects[container] && prefix <= e.name &&
      e == ObjectEntry(e.name, |s.objects[container][e.name].data|, s.objects[container][e.name].contentType)
  {
    if e in s.Listing(container, prefix, None).value.1 {
      ListingRowFromKey(s, container, prefix, None, e);
    }
  }

  /** The listing is empty exactly when no key starts with the prefix. */
  lemma ListingEmpty(s: Store, container: string, prefix: string, delimiter: Option<char>)
    requires container in s.objects
    ensures s.Listing(container, prefix, delimiter).value.1 == {} <==>
      forall k :: k in s.objects[container] ==> !(prefix <= k)
  {
    if exists k :: k in s.objects[container] && prefix <= k {
      var k :| k in s.objects[container] && prefix <= k;
      ListingShowsKey(s, container, prefix, delimiter, k);
    }
  }

  /**
   * With a delimiter, a key that goes deeper than the next segment collapses
   * into the row for that segment, and is not listed as an object.
   */
  lemma ListingCollapses(s: Store, container: string, prefix: string, d: char, key: string)
    requires container in s.objects && key in s.objects[container] && prefix <= key
    requires d in key[|prefix|..]
    ensures var next := TakeUntil(key[|prefix|..], {d});
      d !in next && SubdirEntry(prefix + next + [d]) in s.Listing(container, prefix, Some(d)).value.1
    ensures ObjectEntry(key, |s.objects[container][key].data|, s.objects[container][key].contentType)
      !in s.Listing(container, prefix, Some(d)).value.1
  {
    ListingShowsKey(s, container, prefix, Some(d), key);
    SubdirRow(prefix, d, key, s.objects[container][key]);
  }

  /** The row of a key with a delimiter after the prefix is the prefix, the next segment and the delimiter. */
  lemma SubdirRow(prefix: string, d: char, key: string, o: Obj)
    requires prefix <= key && d in key[|prefix|..]
    ensures var next := TakeUntil(key[|prefix|..], {d});
      d !in next && EntryOf(prefix, Some(d), key, o) == SubdirEntry(prefix + next + [d]) &&
      prefix + next + [d] <= key
  {
    var rest := key[|prefix|..];
    var next := TakeUntil(rest, {d});
    StopFound(rest, d);
    assert rest[..|next| + 1] == next + [d];
    assert key == prefix + rest;
    assert key[..|prefix| + |next| + 1] == prefix + rest[..|next| + 1];
  }

  lemma {:induction false} StopFound(s: string, d: char)
    requires d in s
    ensures var t := TakeUntil(s, {d});
      |t| < |s| && s[|t|] == d && d !in t
  {
    if s[0] != d {
      assert d in s[1..] by {
        var i :| 0 <= i < |s| && s[i] == d;
        assert s[1..][i - 1] == d;
      }
      StopFound(s[1..], d);
    }
  }

  /**
   * With a delimiter, every row is one level deep: a collapsed row is the
   * prefix, one delimiter-free segment and the delimiter, and is itself a
   * prefix of a stored key; an object row has no delimiter after the prefix.
   */
  lemma ListingOneLevel(s: Store, container: string, prefix: string, d: char, e: Entry)
    requires container in s.objects
    requires e in s.Listing(container, prefix, Some(d)).value.1
    ensures e.SubdirEntry? ==>
      exists next: string :: d !in next && e.subdir == prefix + next + [d] &&
        exists k :: k in s.objects[container] && e.subdir <= k
    ensures e.ObjectEntry? ==>
      prefix <= e.name && e.name in s.objects[container] && d !in e.name[|prefix|..]
  {
    ListingRowFromKey(s, container, prefix, Some(d), e);
    var keys := s.objects[container];
    var k :| k in keys && prefix <= k && e == EntryOf(prefix, Some(d), k, keys[k]);
    if d in k[|prefix|..] {
      SubdirRow(prefix, d, k, keys[k]);
    }
  }
}
