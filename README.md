# swiftpath in Dafny

swiftpath gives OpenStack Swift a `pathlib`-style interface. A `SwiftPath`
such as `/container/dir/file.txt` names a container and an object key.
Directories are emulated: a path is a directory when objects are stored
under its key with a trailing `/`, or when a `.swiftkeep` marker object
sits inside it.

This project models `src/swiftpath/swiftpath.py` against an abstract
object store and proves properties of that model. The store holds
containers, each mapping keys to objects, and answers the client calls
the code makes. The model covers:

- **Paths.** The path layer: `PureSwiftPath.container` and `.key`,
  `ObjectPath.from_path`, `__str__` and `as_path`, and `from_uri`.
  For `from_uri`, the URI authority (section 3.2 of RFC 3986) becomes the
  container segment.
- **Store.** The store and its client calls: `head_object`, `get_object`,
  `get_container` with Swift's prefix/delimiter listing rule,
  `get_account`, `put_object`, `post_object`, `copy_object`,
  `delete_object` and `put_container`.
- **Directory.** Directory emulation: `is_dir`, `is_file`, `exists`,
  `listdir`, `iterdir`, the scandir entry classification and `stat`'s
  choice of sources.
- **Mutations, Tree.** Mutations: `unlink`, `link_to`, `symlink` and
  `is_symlink`, `utime`, `touch`, the guards of `mkdir`, and the
  recursive `rmdir`, `rename` and `replace`.
- **Handles.** `open` and its checks; the write handle with its byte
  cache and whole-object uploads; the read handle with its lazily
  fetched body, its consumed flag and its cached content.
- **Lines, Units.** The line machinery: `iter_slices`, `splitlines` and
  `iter_lines`' pending-line carry.
- **Codec.** `decode`, the write handle's `encode` and `decode_b64`,
  with UTF-8 and base64 defined and their round trips proved.

Python exceptions become `Err` values of one `Error` type; a successful
call returns `Ok`.

- A `ValueError` for a relative path is `InvalidPath`.
- A `ValueError` for a bad argument is `InvalidArgument`.
- `FileNotFoundError` is `NotFound`; `FileExistsError` is `AlreadyExists`.
- `io.UnsupportedOperation` is `Unsupported`; a `UnicodeDecodeError` is
  `DecodeFailure`.
- A backend `ClientException` that the code lets through is `ClientError`.
- An `AttributeError` on `None` is `NoneDereference`.
- A `KeyError` for an absent header is `MissingHeader`.
- Running out of Python's recursion depth is `RecursionLimit`.

The recursive operations take a `fuel` argument for that depth.

Some quirks are kept, and the model proves them:

- Renaming a directory leaves its `.swiftkeep` markers behind, so the
  source still exists afterwards (`Tree.Rename`).
- A `\r\n` split across two chunks makes `iter_lines` yield an extra
  empty line (`Lines.StraddledCrLfYieldsEmptyLine`).
- Padded base64 text stored as plain text is decoded anyway
  (`Codec.PlainTextCanBeMangled`).
- On the write handle, `readline` is always empty, since the cache's
  position never leaves its end (`Handles.WriteHandle.Readline`).
- On the read handle, a second `readline` on a stream that was not
  fully consumed returns the empty payload; it does not return the next
  line (`Handles.ReadHandle.Readline`).

Two behaviours a caller may not expect, kept as the code has them:

- The write handle's cache is always opened read-write. So `readable()`,
  `read()` and `readlines()` work on any write handle, even one opened
  without `+`.
- Failures of the Swift client are not translated at the boundary. The
  `ClientException` of `put_object`, `copy_object`, `post_object` and the
  listing calls passes through wherever the code does not catch it; a
  caught one becomes the kind the code raises.

## Model

| member | source | states |
|---|---|---|
| Paths.Container | src/swiftpath/swiftpath.py:535-548 | relative paths fail; the container is the first segment as an absolute path, or none for the root |
| Paths.Key | src/swiftpath/swiftpath.py:549-557 | relative paths fail; the key is the relative path of the segments after the container, and there is none below two segments |
| Paths.ContainerJoinKey | src/swiftpath/swiftpath.py:535-557 | joining the container and the key gives back the path |
| Paths.FromPath | src/swiftpath/swiftpath.py:100-114 | fails exactly on relative paths; the container has no `/`; it is empty exactly for the root; a key exists exactly from two segments on, and it is non-empty with no leading `/` |
| Paths.ShowParseRoundTrip | src/swiftpath/swiftpath.py:92-114 | printing an ObjectPath and parsing it back gives the same ObjectPath |
| Paths.AsPathFromPath | src/swiftpath/swiftpath.py:97-114 | `as_path(from_path(p))` is `p` for every absolute path other than the root; the root comes back as `/` only because `//` is parsed as `/` |
| Paths.ParseStr | src/swiftpath/swiftpath.py:92-99 | parsing a path's string gives back the path |
| Paths.FromUri | src/swiftpath/swiftpath.py:512-533 | fails exactly when the string does not start with `swift://` or when its authority holds one of `[` and `]` without the other, which urlparse refuses |
| Paths.DropUnsafe | src/swiftpath/swiftpath.py:512-513 | what urlparse reads has no tab, carriage return or line feed, and a URL without them is read as it is |
| Paths.UriDropsControl | src/swiftpath/swiftpath.py:512-533 | a tab, carriage return or line feed anywhere after `swift://` does not change the result |
| Paths.BracketedAuthority | src/swiftpath/swiftpath.py:512-533 | `swift://c/k` fails exactly when the authority `c` holds one bracket (`swift://a[b/c`); with both or neither it is read |
| Paths.UriOfPath | src/swiftpath/swiftpath.py:512-533 | `swift://c/a/b` gives the same path as `/c/a/b`, for segments without `?`, `#`, tabs or line breaks and a first segment that does not hold a single bracket |
| Paths.UriFoldsAuthority | src/swiftpath/swiftpath.py:512-533 | the URI authority becomes the first segment |
| Paths.UriOfContainer | src/swiftpath/swiftpath.py:512-533 | `swift://c` is the container path `/c` |
| Paths.TakeUntil | src/swiftpath/swiftpath.py:512-525 | the result is the longest prefix with no stop character |
| Store.Store.HeadObject | src/swiftpath/swiftpath.py:251 | succeeds exactly for a stored object; returns its content type and its length as a decimal string |
| Store.Store.GetObject | src/swiftpath/swiftpath.py:1156-1159 | succeeds exactly for a stored object; returns the same headers as `head_object` and the whole stored body |
| Store.Store.Listing | src/swiftpath/swiftpath.py:221-224 | fails exactly for a missing container; returns the container's headers |
| Store.Store.GetContainer | src/swiftpath/swiftpath.py:221-224 | fails exactly for a missing container; returns every row of the listing, each once |
| Store.ListingCollapses | src/swiftpath/swiftpath.py:313-315 | a key deeper than the delimiter shows up as one `subdir` row for its next segment |
| Store.ListingOneLevel | src/swiftpath/swiftpath.py:313-315 | every delimited row is one level below the prefix: a subdir ends at its first delimiter, and an object has none after the prefix |
| Store.ListingFlat | src/swiftpath/swiftpath.py:592-594 | without a delimiter, the rows are exactly the objects under the prefix |
| Store.ListingEmpty | src/swiftpath/swiftpath.py:592-601 | a listing is empty exactly when no key starts with the prefix |
| Store.Store.GetAccount | src/swiftpath/swiftpath.py:214 | returns every container name, each once |
| Store.Store.PutObject | src/swiftpath/swiftpath.py:473-479 | succeeds exactly for a key in an existing container; replaces that one object and nothing else |
| Store.Store.PostObject | src/swiftpath/swiftpath.py:488-491 | succeeds exactly for a stored object; merges the new headers into it and changes nothing else |
| Store.Store.CopyObject | src/swiftpath/swiftpath.py:390 | succeeds exactly for a stored source and a well-formed destination in an existing container; the destination gets the source object |
| Store.Store.DeleteObject | src/swiftpath/swiftpath.py:367 | succeeds exactly for a stored object; removes that one key |
| Store.Store.PutContainer | src/swiftpath/swiftpath.py:357 | succeeds exactly for a new, non-empty name, which it creates empty with empty headers; a refusal changes nothing |
| Store.Store.ContainerMeta | src/swiftpath/swiftpath.py:252-258 | a listing's headers are the stored ones, and always carry a content length, "0" when none is stored |
| Directory.StatOfContainer | src/swiftpath/swiftpath.py:246-273 | stat succeeds on an absolute path exactly when its container exists, so a new container can be stat'ed; a path that is not an object takes the listing's content length |
| Store.Destination | src/swiftpath/swiftpath.py:390 | the destination string splits into `/container/key` |
| Directory.IsDir | src/swiftpath/swiftpath.py:579-601 | the root is a directory; any other absolute path is one exactly when its container lists objects under its key plus `/` |
| Directory.IsFile | src/swiftpath/swiftpath.py:603-620 | true exactly for an object stored at the path's container and key |
| Directory.Exists | src/swiftpath/swiftpath.py:660-662 | `exists` is exactly `is_dir` or `is_file` |
| Directory.StoredAncestorsExist | src/swiftpath/swiftpath.py:579-620 | every ancestor of a stored object exists |
| Directory.ListDir | src/swiftpath/swiftpath.py:297-329 | relative paths and missing containers fail; the names are exactly the listing's one-level names, with no `/` below the account; no name comes twice when no two rows share a name |
| Directory.IterDir | src/swiftpath/swiftpath.py:714-733 | yields exactly the children of the listed names, without `.`, `..` and (unless asked) `.swiftkeep`; no path comes twice when the names are distinct proper components |
| Directory.Scandir | src/swiftpath/swiftpath.py:203-239 | relative paths dereference None; at account level, every container is a directory entry; below it, one entry per listing row |
| Directory.RowEntryClassifies | src/swiftpath/swiftpath.py:225-239 | a subdir row is a directory; an object row is a symlink exactly when its content type is `application/symlink`; the name is the next segment |
| Directory.Stat | src/swiftpath/swiftpath.py:246-273 | a stored object gives its length and the mtime from `x-object-meta-mtime`, then `x-timestamp`, then 0; otherwise the container's headers are used; `NotFound` when the container is missing too, `MissingHeader` when the chosen headers have no content length |
| Mutations.Unlink | src/swiftpath/swiftpath.py:363-371 | deletes exactly the stored object; a missing one is `NotFound` unless `missing_ok` |
| Mutations.LinkTo | src/swiftpath/swiftpath.py:374-390 | succeeds exactly for a stored source and a target in an existing container, with a relative target placed in the source's container; only the target key changes, and it gets the source object |
| Mutations.RelativeTarget | src/swiftpath/swiftpath.py:379-389 | a relative target is resolved inside the source's container |
| Mutations.IsSymlink | src/swiftpath/swiftpath.py:646-658 | `NotFound` exactly when nothing is stored; true exactly for the symlink content type |
| Mutations.Symlink | src/swiftpath/swiftpath.py:456-480 | needs an existing source and a missing link; on success the link is an empty object with the symlink type, and it is a symlink that exists |
| Mutations.Utime | src/swiftpath/swiftpath.py:483-492 | updates only the stored object's `x-timestamp` header; missing paths are `NotFound` |
| Mutations.Touch | src/swiftpath/swiftpath.py:572-577 | a missing path gets an empty object; an existing file gets a new timestamp; afterwards the file is there |
| Mutations.MkdirGuard | src/swiftpath/swiftpath.py:622-644 | the root dereferences None; a container is created only when it has no contents; a key path proceeds only with `parents`, else `exist_ok` decides |
| Mutations.Mkdir | src/swiftpath/swiftpath.py:343-360 | an existing path is `AlreadyExists` unless `exist_ok`; a new container is created empty; a key path gets a `.swiftkeep` marker and is then a directory: the new state is the old one with that marker written, an empty object when it was absent and the old one with a new `x-timestamp` when present; a failure on a key path changes nothing; only a new container changes the stored headers, giving it empty ones |
| Mutations.MarkerInside | src/swiftpath/swiftpath.py:349-354 | a `.swiftkeep` marker makes its directory a directory |
| Mutations.NewContainerDoesNotExist | src/swiftpath/swiftpath.py:579-601 | a freshly made, empty container does not exist as a path |
| Tree.Rmdir | src/swiftpath/swiftpath.py:393-418 | relative paths fail; a missing container returns normally; failures are client errors or the recursion limit; only objects under the path are deleted, markers never; every listed non-directory child is gone afterwards; when the keys under the path are well formed, only markers are left under it, and a directory that held no marker no longer exists |
| Tree.Covered | src/swiftpath/swiftpath.py:408-413 | when the keys are well formed, every object under a directory other than a marker lies at or under one of the items iterdir yields |
| Tree.WellFormedListing | src/swiftpath/swiftpath.py:297-329 | below a directory with well-formed keys, the listed names are proper components and no two rows share one |
| Tree.GoneWhenCleared | src/swiftpath/swiftpath.py:579-601 | a directory without markers that had contents, to which nothing was added and which now holds only markers, no longer exists |
| Tree.RemovedKept | src/swiftpath/swiftpath.py:408-418 | what `rmdir` leaves is unchanged outside the path, and the markers are untouched |
| Tree.Rename | src/swiftpath/swiftpath.py:421-449 | relative paths fail; failures are client errors or the recursion limit; nothing outside the source and the target changes; a file is copied to the target and deleted, and a failure changes nothing; markers stay, so a marked source is still a directory; a directory apart from its target with well-formed keys has every object but its markers moved to the same relative key under the target, nothing new inside it, every other object at or inside the target left as it was, and no longer exists when it held no marker |
| Tree.RenameDir | src/swiftpath/swiftpath.py:436-440 | the directory branch: every object of the source other than a marker leaves its key and is found, unchanged, at the same relative key under the target; nothing else at or inside the target changes; nothing appears inside the source; without markers the source no longer exists |
| Tree.RenameItems | src/swiftpath/swiftpath.py:437-439 | after the loop every item's objects sit at their place under the target, the rest of the target is as it was, and nothing was added inside the source |
| Tree.RenameItem | src/swiftpath/swiftpath.py:438-439 | only the item and its place under the target change; the item's objects, other than markers, move to that place, and nothing else there changes |
| Tree.TargetStep | src/swiftpath/swiftpath.py:437-439 | a step of the loop changes the target only where it puts an object of the source |
| Tree.TargetObjectSurvives | src/swiftpath/swiftpath.py:436-440 | renaming `/c/s` to `/c/t` keeps the object `t/y`, which no source object lands on |
| Tree.RenameStep | src/swiftpath/swiftpath.py:437-439 | a step of the loop keeps the earlier items moved and the later ones untouched, and adds nothing inside the source |
| Tree.RelocatedAssemble | src/swiftpath/swiftpath.py:436-440 | moving every item and then removing the source relocates everything under the source except its markers |
| Tree.Moved | src/swiftpath/swiftpath.py:445-449 | copy then delete: the target holds the source object, the source key is gone, and everything else is the same |
| Tree.MovedKept | src/swiftpath/swiftpath.py:445-449 | a single move touches only the source and the target; markers are untouched unless one of them is a marker |
| Tree.MarkerStays | src/swiftpath/swiftpath.py:393-449 | with the markers untouched, a directory that had a marker is still a directory |
| Tree.Replace | src/swiftpath/swiftpath.py:452-453 | relative sources fail; behaves as `rename`, with the same guarantees for files and directories and the same failure kinds, and returns the target path |
| Handles.Open | src/swiftpath/swiftpath.py:748-786 | relative paths fail; succeeds exactly for the ten modes, a buffering other than 0 or 1, and no non-empty encoding with a binary mode, except that a write handle fails when its binary cache is created: for a mode with 't', for a binary mode given any encoding, even an empty one, and for any newline argument; the read handle exactly when the mode has no 'w'; no accepted mode has `+` |
| Handles.CacheRefusals | src/swiftpath/swiftpath.py:893-909 | `wt` and `tw`, `wb` and `bw` with the encoding `""`, and `w` with a newline argument pass open's own checks but are refused by the cache, while `w` with any encoding and plain `wb` open |
| Handles.WriteHandle.Upload | src/swiftpath/swiftpath.py:971-978 | the whole cache replaces the stored object; returns the cache's size; a refused upload leaves the store as it was |
| Handles.WriteHandle.Write | src/swiftpath/swiftpath.py:980-982 | appends the encoded payload to the cache, then uploads the whole cache and returns its accumulated size |
| Handles.WriteHandle.Writelines | src/swiftpath/swiftpath.py:984-994 | appends the encoded lines joined by `\n`, with none after the last; the store is untouched |
| Handles.WriteHandle.Exit | src/swiftpath/swiftpath.py:919-926 | uploads again only after a normal exit; after an exception the store is untouched |
| Handles.WriteHandle.Read | src/swiftpath/swiftpath.py:999-1003 | returns the whole cache as bytes |
| Handles.WriteHandle.Readline | src/swiftpath/swiftpath.py:1005-1008 | returns empty bytes, since the position is at the cache's end |
| Handles.WriteHandle.Readlines | src/swiftpath/swiftpath.py:1010-1016 | returns the cache's lines, each keeping its `\n` |
| Handles.WriteHandle.Readable | src/swiftpath/swiftpath.py:996-997 | always true: the cache's mode has `+` |
| Handles.WriteHandle.WritableAsWritten | src/swiftpath/swiftpath.py:934-935 | always false: the cache's reported mode has no 'w' |
| Handles.WriteHandle.Writable | src/swiftpath/swiftpath.py:934-935 | true for every handle `open` builds |
| Handles.WriteHandleNotWritable | src/swiftpath/swiftpath.py:934-935 | a write handle from `open` reports itself not writable |
| Handles.KeepEndsGlue | src/swiftpath/swiftpath.py:1010-1016 | the lines `readlines` returns, put together, are the cache |
| Handles.KeepEndsShape | src/swiftpath/swiftpath.py:1010-1016 | every line is non-empty, and each but the last ends with its only `\n` |
| Handles.KeepEndsJoin | src/swiftpath/swiftpath.py:984-1016 | reading back what `writelines` wrote gives the lines, each but the last with its `\n` |
| Handles.ReadHandle.Readable | src/swiftpath/swiftpath.py:1147-1163 | false for a mode without 'r' or a failed fetch; otherwise the body is fetched once and kept |
| Handles.ReadHandle.Read | src/swiftpath/swiftpath.py:1165-1172 | `Unsupported` when not readable; otherwise drains the rest of the body, ignoring `n`, and decodes it for the mode |
| Handles.ReadHandle.IterContent | src/swiftpath/swiftpath.py:1092-1106 | once consumed: slices of the cached content; before: the decoded rest of the stream, after which it is consumed; a decode failure leaves it unconsumed |
| Handles.ReadHandle.Readlines | src/swiftpath/swiftpath.py:1174-1183 | the lines of the decoded stream, which it caches, and the stream is then consumed; once consumed, the lines of the cached content again |
| Handles.ReadHandle.Readline | src/swiftpath/swiftpath.py:1185-1193 | the first line of the cached content, or of the decoded rest of the stream, or the empty payload; the stream is consumed exactly when it had no line boundary; a decode failure gives the empty payload |
| Handles.ReadHandle.Write | src/swiftpath/swiftpath.py:1195-1196 | always `Unsupported` |
| Handles.ReadHandle.Writelines | src/swiftpath/swiftpath.py:1198-1199 | always `Unsupported` |
| Handles.ReadHandle.Writable | src/swiftpath/swiftpath.py:1201-1202 | always false |
| Handles.StreamFirst | src/swiftpath/swiftpath.py:1108-1145 | on a stream read in one piece, `iter_lines` first yields `splitlines`' first line; it holds the whole chunk back exactly when there is no boundary |
| Lines.IterSlices | src/swiftpath/swiftpath.py:1019-1028 | the slices are consecutive and non-empty, and together they give the input; all but the last are full width; a width of None or <= 0 means the whole |
| Lines.IterLines | src/swiftpath/swiftpath.py:1108-1145 | collects exactly the lines of the pending-line carry over the chunks |
| Lines.IterLinesAgreesWithSplit | src/swiftpath/swiftpath.py:1108-1145 | unless a `\r\n` straddles two chunks, `iter_lines` yields exactly `splitlines` of the whole stream |
| Lines.IterLinesFirstLine | src/swiftpath/swiftpath.py:1108-1145 | over any chunking, the first line `iter_lines` yields is the first line of the whole |
| Lines.StraddledCrLfYieldsEmptyLine | src/swiftpath/swiftpath.py:1128-1137 | `a\r` then `\nb` gives `a`, an empty line, then `b`, where `splitlines` of the whole gives `a`, `b` |
| Lines.HoldsBackIff | src/swiftpath/swiftpath.py:1137-1140 | the last line is held back exactly when the chunk is non-empty and does not end with a boundary |
| Lines.SplitLinesParts | src/swiftpath/swiftpath.py:1128-1136 | no line `splitlines` returns contains a boundary |
| Lines.SplitJoinLines | src/swiftpath/swiftpath.py:1128-1136 | lines without boundaries, joined by `\n`, split back into the same lines |
| Units.DataLines | src/swiftpath/swiftpath.py:1182 | `splitlines` of a `str` or `bytes` payload, of the payload's own type |
| Codec.Decode | src/swiftpath/swiftpath.py:852-877 | bytes exactly when the mode has 'b'; a value already of the mode's type passes through; only bytes-to-text can fail |
| Codec.DecodeIdempotent | src/swiftpath/swiftpath.py:852-877 | decoding a decoded value again changes nothing |
| Codec.DecodeTextRoundTrip | src/swiftpath/swiftpath.py:852-877 | text encoded to bytes and decoded back is unchanged |
| Codec.Encode | src/swiftpath/swiftpath.py:937-966 | bytes pass through unchanged; text becomes bytes that decode back to it |
| Codec.WriteMode | src/swiftpath/swiftpath.py:895 | the write mode always has 'b' |
| Codec.Utf8RoundTrip | src/swiftpath/swiftpath.py:852-877 | UTF-8 decoding of the encoding of any text gives back the text |
| Codec.DecodeB64 | src/swiftpath/swiftpath.py:1087-1090 | content that is not a whole number of padded base64 quanta passes through unchanged |
| Codec.DecodeB64OfEncoded | src/swiftpath/swiftpath.py:1087-1090 | the base64 encoding of any bytes decodes back to them |
| Codec.B64EncodeMatches | src/swiftpath/swiftpath.py:58 | base64 encodings match the alphabet pattern and decode back |
| Codec.PlainTextCanBeMangled | src/swiftpath/swiftpath.py:1087-1090 | the plain bytes `test` are taken for base64 and decoded |

## Left out

- The Keystone session, the Swift connection and its context managers are left out. Every call goes to the abstract store instead, and connecting never fails.
- Logging is left out. It has no effect on the state.
- Running out of recursion depth is modelled as the `fuel` argument of `Tree.Rmdir`, `Tree.Rename` and `Tree.Replace`. The interpreter's actual limit is not modelled.
- `iterdir(recurse=True)`, `glob`, `rglob` and `mkdir(parents=True)` are left out. They rely on pathlib code that is not part of this model.
- `mkdir`'s call of pathlib's own `mkdir` is left out for the same reason.
- `iter_lines` with an explicit delimiter is left out. Nothing in the code passes one.
- Timestamps are left out: ISO dates, float parsing, `convert_to_timestamp`, `st_mtime`, and the clock read by `utime` and `touch` is a parameter. `stat` returns the header strings it chose.
- `StatResult`'s reflection over `posix.stat_result` is left out. So are `SwiftDirEntry`'s size and last-modified fields.
- Every encoding name is read as UTF-8. The `errors` argument of `open` is ignored. The `newline` argument only counts where the write handle's cache refuses it.
- Text is a sequence of Unicode scalar values, since a Dafny `char` cannot hold a lone surrogate. So the write handle's default `errors`, `sys.getfilesystemencodeerrors()` (`surrogateescape` on POSIX), and strings or path segments carrying surrogate escapes are outside the model. `Codec.Encode` is strict UTF-8 on every text it can be given.
- The `_closed` check in `open` is left out. Nothing in the source sets it.
- The platform test in `readable` assumes a non-Windows host.
- The NotImplementedError stubs (`cwd`, `home`, `chmod`, `lchmod`, `expanduser`, `group`, `is_block_device`, `is_char_device`, `lstat`, `resolve`, `readlink`) are left out. These always fail, so there is nothing to prove.
- `is_mount`, `is_fifo` and `is_socket`, which always return false, are left out.
- The temporary file's lifetime is left out: tempfile creation, `atexit`, `flush` and `close`. So is attribute delegation through `__getattr__`. The cache is a byte sequence with a position.
- `__iter__` and `__next__` of the read handle are left out. `__next__` is `readline`.
- Python generators are lazy. `Lines.IterSlices`, `Lines.IterLines` and `Handles.ReadHandle.IterContent` collect into lists. `Handles.ReadHandle.Readline` models the lazy first step as its own method.
- A read handle on a container path calls `get_object` with no key and swiftclient would reject it. The model takes that as a failed fetch.
- Store.Store.ContainerMeta: a real listing's content length is the length of the listing body. The model does not render listing bodies, so a listing without a stored length says "0".
- Store.Enumerate: lists a container's rows in no particular order. Swift sorts a listing by name, and `rmdir` and `rename` work through the entries in that order. No contract here depends on the order.
- Store.Store.GetContainer: the code calls `get_container` without `full_listing`, so a real server returns at most one page of rows (10000 by default). The model always returns every row.
- Store.Store.PostObject: merges the new headers into the stored ones. A Swift POST replaces all of an object's user metadata instead.
- Paths.AsPathFromPath: the POSIX double-slash root `//` is parsed as `/`, so the round trip also holds at the root. The code's flavour keeps `//` as a root of its own, and its `as_path` of the root prints `//`.
- Tree.Rename: where a directory's objects end up is stated only when the source and the target are below the account root, do not overlap, and the keys inside the source are well formed (`Tree.WellFormedUnder`). A target inside the source makes the code walk into what it has just copied. A malformed key makes iterdir miss it or yield a name twice: an empty or `..` component, or a marker in the middle, yields no name that leads back to the key, and an object `d/x` beside keys under `d/x/` gives the name `x` both as an object row and as a subdir row. Neither case has a single outcome to state. The frame, the file case and the markers are stated for every input.
- Tree.Rmdir: that only markers are left is stated only for well-formed keys, for the reason given for `Tree.Rename`.
- Tree.Replace: the directory case is stated under the same conditions as `Tree.Rename`.
- Handles.WriteHandle.Upload: after a refused upload, the cache position is placed at its end, where pass-through reading would have left it.
- Handles.Open: the `_closed` check is not modelled, as above.
- Paths.FromUri: two checks of urlsplit are not modelled, and the model accepts those URIs. From Python 3.11.4 on, an authority holding both brackets must be an IPv6 or IPvFuture address. A non-ASCII authority whose NFKC form gains a `/`, `?`, `#`, `@` or `:` is refused. The model has neither an IP address grammar nor Unicode normalisation. The deletion of tabs and line breaks is modelled as in Python 3.9.5 and later.
- Mutations.Unlink: a directory path that holds no object of its own gives `NotFound`, as the code's `delete_object` does on a real store. tests/test_unit.py:541-542 expects IsADirectoryError for `/test-container/fake_folder`. The code never raises that error itself, so the test relies on the fake backend of its `mock_swift` fixture, which is not part of this model.

## Findings

| source | as written | input that shows it | evidently intended | confidence | as-written member | corrected member |
|---|---|---|---|---|---|---|
| src/swiftpath/swiftpath.py:934-935 | `writable()` tests for 'w' in the cache's mode. The cache is opened `wb+`, which a raw file reports as `rb+`, so the test is always false | any handle from `open(mode="w")` | true for a handle opened to write | not executed | Handles.WriteHandle.WritableAsWritten | Handles.WriteHandle.Writable |
