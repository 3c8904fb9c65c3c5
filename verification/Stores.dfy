/** The two kinds of media store, each proved to do to one asset's bytes what `MediaStore.Disk` says. */
module Stores {
  import opened Encrypt
  import opened Hexadecimal
  import opened MediaStore
  import opened Wrappers

  /** The shape of an asset id: a lower-case UUID. */
  predicate IsAssetId(id: string) {
    |id| == 36 && forall i :: 0 <= i < 36 ==> if i in {8, 13, 18, 23} then id[i] == '-' else IsHexDigit(id[i])
  }

  // ------------------------------------------------------------- one file per asset

  class FsMediaStore {
    /** Ciphertext files by asset id. */
    var files: map<string, Bytes>

    constructor ()
      ensures files == map[]
    {
      files := map[];
    }

    function Stored(assetId: string): Disk
      reads this
    {
      File(if assetId in files then Some(files[assetId]) else None)
    }

    method TruncateCiphertext(assetId: string, offset: nat)
      modifies this
      ensures Stored(assetId) == Truncated(old(Stored(assetId)), offset, {})
      ensures files - {assetId} == old(files) - {assetId}
    {
      if assetId in files && |files[assetId]| > offset {
        files := files[assetId := files[assetId][..offset]];
      }
    }

    /**
     Opens the file, or else creates it empty, and writes at the offset; `stored` is how much of the chunk reaches
     it. An existing file that does not open for update, for whatever reason, is created anew as well.
     */
    method WriteCiphertextChunk(assetId: string, offset: nat, chunk: Bytes, opens: bool, stored: nat)
      returns (ok: bool)
      requires stored <= |chunk|
      modifies this
      ensures
        var before := if opens then old(Stored(assetId)) else File(Some([]));
        && (stored == |chunk| ==> (Stored(assetId), ok) == Written(before, offset, chunk))
        && (stored < |chunk| ==> !ok && Stored(assetId) == PartlyWritten(before, offset, chunk, stored))
      ensures files - {assetId} == old(files) - {assetId}
    {
      if assetId !in files || !opens { files := files[assetId := []]; }
      var b := files[assetId];
      if |b| < offset { return false; }
      var end := offset + stored;
      files := files[assetId := b[..offset] + chunk[..stored] + (if end < |b| then b[end..] else [])];
      ok := stored == |chunk|;
      assert chunk[..|chunk|] == chunk;
    }

    method ReadCiphertext(assetId: string, expectedBytes: nat) returns (r: Option<Bytes>)
      ensures r == Read(Stored(assetId), expectedBytes)
    {
      if assetId !in files || |files[assetId]| != expectedBytes { return None; }
      r := Some(files[assetId]);
    }
  }

  // ------------------------------------------------------------- one object per chunk

  const PART_SUFFIX := ".part"

  function PartPrefix(assetId: string): string {
    "wtr/ciphertext/" + assetId + "/"
  }

  function PartKey(assetId: string, offset: nat): string {
    PartPrefix(assetId) + PadStart(ToString16(offset), 16) + PART_SUFFIX
  }

  /** The match of `/\/([0-9a-f]{16})\.part$/`, read as a number. */
  function MatchPart(key: string): Option<nat> {
    if |key| < 22 then None else
      var start := |key| - 21;
      if key[start - 1] == '/' && IsHex(key[start..start + 16]) && key[start + 16..] == PART_SUFFIX
      then Some(ParseHex(key[start..start + 16])) else None
  }

  /** Offsets that fit the 16 digits of a part key; every JavaScript integer does. */
  predicate Fits(offset: nat) {
    offset < Pow16(16)
  }

  /** A part key is read back exactly. */
  lemma PartKeyParses(assetId: string, offset: nat)
    requires Fits(offset)
    ensures MatchPart(PartKey(assetId, offset)) == Some(offset)
    ensures PartPrefix(assetId) <= PartKey(assetId, offset)
  {
    hide ParseHex, Hex, PadStart, ToString16, Pow16;
    PadStartIsHex(offset, 16);
    ParsePrinted(offset, 16);
    var key, p := PartKey(assetId, offset), PartPrefix(assetId);
    assert key[|p|..|p| + 16] == Hex(offset, 16) && key[|p| + 16..] == PART_SUFFIX && key[|p| - 1] == '/';
    assert |key| - 21 == |p|;
  }

  /** Keys of different assets never share a listing prefix, so part keys are injective in both arguments. */
  lemma PrefixesAreDisjoint(a: string, b: string, key: string)
    requires IsAssetId(a) && IsAssetId(b)
    requires PartPrefix(a) <= key && PartPrefix(b) <= key
    ensures a == b
  {
    assert key[15..51] == a && key[15..51] == b;
  }

  lemma PartKeyInjective(a: string, o: nat, b: string, p: nat)
    requires IsAssetId(a) && IsAssetId(b) && Fits(o) && Fits(p)
    ensures PartKey(a, o) == PartKey(b, p) <==> a == b && o == p
  {
    hide PartKey, MatchPart;
    PartKeyParses(a, o);
    PartKeyParses(b, p);
    if PartKey(a, o) == PartKey(b, p) { PrefixesAreDisjoint(a, b, PartKey(a, o)); }
  }

  datatype Part = Part(offset: nat, key: string)

  predicate PartsIncreasing(s: seq<Part>) {
    forall i, j :: 0 <= i < j < |s| ==> s[i].offset < s[j].offset
  }

  predicate DistinctOffsets(s: seq<Part>) {
    forall i, j :: 0 <= i < j < |s| ==> s[i].offset != s[j].offset
  }

  function Inserted(p: Part, s: seq<Part>): (r: seq<Part>)
    requires PartsIncreasing(s) && forall q :: q in s ==> q.offset != p.offset
    ensures PartsIncreasing(r) && forall q :: q in r <==> q == p || q in s
  {
    if s == [] then [p]
    else if p.offset < s[0].offset then
      assert forall i :: 0 <= i < |s| ==> p.offset < s[i].offset;
      [p] + s
    else
      var rest := Inserted(p, s[1..]);
      HeadIsLeast(p, s, rest);
      [s[0]] + rest
  }

  lemma HeadIsLeast(p: Part, s: seq<Part>, rest: seq<Part>)
    requires s != [] && PartsIncreasing(s) && s[0].offset < p.offset
    requires forall q :: q in rest <==> q == p || q in s[1..]
    ensures forall i :: 0 <= i < |rest| ==> s[0].offset < rest[i].offset
    ensures forall q :: q in s <==> q == s[0] || q in s[1..]
  {
    forall i | 0 <= i < |rest|
      ensures s[0].offset < rest[i].offset
    {
      assert rest[i] in rest;
      if rest[i] != p {
        var k :| 0 <= k < |s[1..]| && s[1..][k] == rest[i];
        assert s[k + 1] == rest[i];
      }
    }
    assert s == [s[0]] + s[1..];
  }

  /** `parts.sort((a, b) => a.offset - b.offset)`. */
  function SortedByOffset(s: seq<Part>): (r: seq<Part>)
    requires DistinctOffsets(s)
    ensures PartsIncreasing(r) && forall q :: q in r <==> q in s
  {
    if s == [] then [] else
      var front, last := s[..|s| - 1], s[|s| - 1];
      assert forall q :: q in s <==> q in front || q == last;
      Inserted(last, SortedByOffset(front))
  }

  /** The pages a listing call returns: together, each key under the prefix exactly once, cut anyhow. */
  ghost predicate IsListing(pages: seq<seq<string>>, keys: set<string>, prefix: string) {
    && pages != []
    && (forall k :: k in AllKeys(pages) <==> k in keys && prefix <= k)
    && (forall i, j :: 0 <= i < j < |AllKeys(pages)| ==> AllKeys(pages)[i] != AllKeys(pages)[j])
  }

  function AllKeys(pages: seq<seq<string>>): seq<string> {
    if pages == [] then [] else AllKeys(pages[..|pages| - 1]) + pages[|pages| - 1]
  }

  /** The parts named by a run of keys; keys of another shape are passed over. */
  function PartsNamed(keys: seq<string>): seq<Part> {
    if keys == [] then [] else
      var front, last := PartsNamed(keys[..|keys| - 1]), keys[|keys| - 1];
      match MatchPart(last)
      case None => front
      case Some(offset) => front + [Part(offset, last)]
  }

  lemma {:induction false} PartsNamedAppend(a: seq<string>, b: seq<string>)
    ensures PartsNamed(a + b) == PartsNamed(a) + PartsNamed(b)
    ensures PartsNamed([]) == []
  {
    if b == [] {
      assert a + b == a;
    } else {
      assert (a + b)[..|a + b| - 1] == a + b[..|b| - 1];
      PartsNamedAppend(a, b[..|b| - 1]);
    }
  }

  lemma {:induction false} PartsNamedAre(keys: seq<string>)
    ensures forall p :: p in PartsNamed(keys) <==> p.key in keys && MatchPart(p.key) == Some(p.offset)
  {
    if keys != [] {
      var front, last := keys[..|keys| - 1], keys[|keys| - 1];
      PartsNamedAre(front);
      assert keys == front + [last];
    }
  }

  lemma {:induction false} PartsNamedDistinct(keys: seq<string>)
    requires forall i, j :: 0 <= i < j < |keys| ==> MatchPart(keys[i]) != MatchPart(keys[j])
    ensures DistinctOffsets(PartsNamed(keys))
  {
    if keys != [] {
      var front, last := keys[..|keys| - 1], keys[|keys| - 1];
      PartsNamedDistinct(front);
      PartsNamedAre(front);
      var f := PartsNamed(front);
      forall i | 0 <= i < |f|
        ensures MatchPart(last) != Some(f[i].offset)
      {
        assert f[i] in f;
        var k :| 0 <= k < |front| && front[k] == f[i].key;
        assert keys[k] == f[i].key;
      }
    }
  }

  method ScanPage(page: seq<string>) returns (parts: seq<Part>)
    ensures parts == PartsNamed(page)
  {
    hide MatchPart;
    parts := [];
    for i := 0 to |page|
      invariant parts == PartsNamed(page[..i])
    {
      assert page[..i + 1][..i] == page[..i];
      var m := MatchPart(page[i]);
      if m.Some? { parts := parts + [Part(m.value, page[i])]; }
    }
    assert page[..|page|] == page;
  }

  /** The object store: the Vercel Blob and Cloudflare R2 classes differ only in the SDK they call. */
  class PartMediaStore {
    var bucket: map<string, Bytes>

    constructor ()
      ensures bucket == map[]
    {
      bucket := map[];
    }

    /** Every key under the asset's listing prefix is one of its part keys. */
    ghost predicate Valid(assetId: string)
      reads this
    {
      forall k :: k in bucket && PartPrefix(assetId) <= k ==>
        MatchPart(k).Some? && Fits(MatchPart(k).value) && k == PartKey(assetId, MatchPart(k).value)
    }

    ghost function Offsets(assetId: string): set<nat>
      reads this
    {
      set k | k in bucket && PartPrefix(assetId) <= k && MatchPart(k).Some? :: MatchPart(k).value
    }

    ghost function Stored(assetId: string): Disk
      requires Valid(assetId)
      reads this
    {
      Objects(map o | o in Offsets(assetId) :: bucket[PartKey(assetId, o)])
    }

    /** Follows the cursor through every page. */
    method ListParts(assetId: string, pages: seq<seq<string>>) returns (parts: seq<Part>)
      requires Valid(assetId)
      requires IsListing(pages, bucket.Keys, PartPrefix(assetId))
      ensures PartsIncreasing(parts)
      ensures forall p :: p in parts <==> p.offset in Offsets(assetId) && p.key == PartKey(assetId, p.offset)
    {
      hide PartKey, MatchPart, PartPrefix, PartsNamed, SortedByOffset;
      parts := [];
      PartsNamedAppend([], []);
      var cursor := 0;
      while true
        invariant cursor < |pages|
        invariant parts == PartsNamed(AllKeys(pages[..cursor]))
        decreases |pages| - cursor
      {
        var named := ScanPage(pages[cursor]);
        parts := parts + named;
        assert pages[..cursor + 1][..cursor] == pages[..cursor];
        PartsNamedAppend(AllKeys(pages[..cursor]), pages[cursor]);
        cursor := cursor + 1;
        if cursor == |pages| { break; }
      }
      assert pages[..|pages|] == pages;
      ListedParts(assetId, AllKeys(pages));
      parts := SortedByOffset(parts);
    }

    lemma ListedParts(assetId: string, keys: seq<string>)
      requires Valid(assetId)
      requires forall k :: k in keys <==> k in bucket && PartPrefix(assetId) <= k
      requires forall i, j :: 0 <= i < j < |keys| ==> keys[i] != keys[j]
      ensures DistinctOffsets(PartsNamed(keys))
      ensures forall p :: p in PartsNamed(keys)
                          <==> p.offset in Offsets(assetId) && p.key == PartKey(assetId, p.offset)
    {
      hide PartKey, MatchPart, PartPrefix, PartsNamed;
      forall i, j | 0 <= i < j < |keys|
        ensures MatchPart(keys[i]) != MatchPart(keys[j])
      {
        assert keys[i] in keys && keys[j] in keys;
      }
      PartsNamedDistinct(keys);
      PartsNamedAre(keys);
    }

    /** What other assets and previews keep in the bucket is not touched. */
    twostate predicate SameElsewhere(assetId: string)
      reads this
    {
      forall k :: !(PartPrefix(assetId) <= k) ==>
        (k in bucket <==> k in old(bucket)) && (k in bucket ==> bucket[k] == old(bucket)[k])
    }

    /** Deletes every part at or after the offset; a crash in between leaves those in `kept`. */
    method TruncateCiphertext(assetId: string, offset: nat, pages: seq<seq<string>>, kept: set<nat>)
      requires Valid(assetId)
      requires IsListing(pages, bucket.Keys, PartPrefix(assetId))
      modifies this
      ensures Valid(assetId) && SameElsewhere(assetId)
      ensures Stored(assetId) == Truncated(old(Stored(assetId)), offset, kept)
    {
      hide PartKey, MatchPart, PartPrefix, IsListing;
      var parts := ListParts(assetId, pages);
      var stale := set p | p in parts && p.offset >= offset && p.offset !in kept :: p.key;
      OffsetKeys(assetId);
      ghost var was := bucket;
      ghost var wasStored := Stored(assetId).parts;
      bucket := bucket - stale;
      forall o: nat
        ensures o in Offsets(assetId) <==> o in wasStored && (o < offset || o in kept)
      {
        var key := PartKey(assetId, o);
        if o in wasStored && (o < offset || o in kept) {
          assert key !in stale;
          assert key in bucket;
        }
        if o in Offsets(assetId) {
          var k :| k in bucket && PartPrefix(assetId) <= k && MatchPart(k) == Some(o);
          assert k == key && o in wasStored;
          assert Part(o, key) in parts;
        }
      }
      OffsetKeys(assetId);
      assert Stored(assetId).parts == Truncated(Objects(wasStored), offset, kept).parts;
    }

    lemma OffsetKeys(assetId: string)
      requires Valid(assetId)
      ensures forall o :: o in Offsets(assetId) ==>
        && Fits(o) && PartKey(assetId, o) in bucket
        && PartPrefix(assetId) <= PartKey(assetId, o) && MatchPart(PartKey(assetId, o)) == Some(o)
    {
      hide PartKey, MatchPart, PartPrefix;
    }

    /** Puts one part; `stored` short of the chunk means the request died before the object was there. */
    method WriteCiphertextChunk(assetId: string, offset: nat, chunk: Bytes, stored: nat) returns (ok: bool)
      requires Valid(assetId) && Fits(offset) && stored <= |chunk|
      modifies this
      ensures Valid(assetId) && SameElsewhere(assetId)
      ensures stored == |chunk| ==>
        (Stored(assetId), ok) == Written(old(Stored(assetId)), offset, chunk)
      ensures stored < |chunk| ==>
        !ok && Stored(assetId) == PartlyWritten(old(Stored(assetId)), offset, chunk, stored)
    {
      hide PartKey, MatchPart, PartPrefix;
      if stored < |chunk| { return false; }
      PartKeyParses(assetId, offset);
      OffsetKeys(assetId);
      ghost var wasOffsets := Offsets(assetId);
      ghost var wasStored := Stored(assetId).parts;
      bucket := bucket[PartKey(assetId, offset) := chunk];
      forall o
        ensures o in Offsets(assetId) <==> o in wasOffsets + {offset}
      {
        if o in wasOffsets {
          assert PartKey(assetId, o) in bucket;
        }
        if o == offset {
          assert PartKey(assetId, o) in bucket;
        }
      }
      OffsetKeys(assetId);
      assert Stored(assetId).parts == wasStored[offset := chunk];
      return true;
    }

    /** Reads the parts in order, each at the position where the last one ended. */
    method ReadCiphertext(assetId: string, expectedBytes: nat, pages: seq<seq<string>>) returns (r: Option<Bytes>)
      requires Valid(assetId)
      requires IsListing(pages, bucket.Keys, PartPrefix(assetId))
      ensures r == Read(Stored(assetId), expectedBytes)
    {
      hide PartKey, MatchPart, PartPrefix, IsListing, Ascending, Walked, Offsets;
      var parts := ListParts(assetId, pages);
      ghost var stored, offsets := Stored(assetId).parts, seq(|parts|, i requires 0 <= i < |parts| => parts[i].offset);
      ListedAscending(assetId, parts, offsets);
      var out: Bytes := [];
      var position := 0;
      WalkedNone(stored, offsets, expectedBytes);
      for i := 0 to |parts|
        invariant position == |out|
        invariant forall o :: o in offsets[..i] ==> o in stored
        invariant Walked(stored, offsets[..i], expectedBytes) == Some(out)
      {
        WalkedStep(stored, offsets, i, expectedBytes);
        if parts[i].offset != position { return None; }
        var bytes := bucket[parts[i].key];
        if position + |bytes| > expectedBytes { return None; }
        out := out + bytes;
        position := position + |bytes|;
      }
      assert offsets[..|offsets|] == offsets;
      if position != expectedBytes { return None; }
      r := Some(out);
    }

    lemma ListedAscending(assetId: string, parts: seq<Part>, offsets: seq<nat>)
      requires Valid(assetId) && PartsIncreasing(parts)
      requires forall p :: p in parts <==> p.offset in Offsets(assetId) && p.key == PartKey(assetId, p.offset)
      requires offsets == seq(|parts|, i requires 0 <= i < |parts| => parts[i].offset)
      ensures offsets == Ascending(Stored(assetId).parts.Keys)
      ensures forall o :: o in offsets ==> o in Stored(assetId).parts
      ensures forall i :: 0 <= i < |parts| ==>
        parts[i].key in bucket && bucket[parts[i].key] == Stored(assetId).parts[offsets[i]]
    {
      hide PartKey, MatchPart, PartPrefix;
      OffsetKeys(assetId);
      var s := Offsets(assetId);
      forall i | 0 <= i < |offsets|
        ensures offsets[i] in s
      {
        assert parts[i] in parts;
      }
      forall o | o in s
        ensures o in offsets
      {
        var p := Part(o, PartKey(assetId, o));
        assert p in parts;
        var i :| 0 <= i < |parts| && parts[i] == p;
        assert offsets[i] == o;
      }
      AscendingIsUnique(offsets, s);
      assert Stored(assetId).parts.Keys == s;
    }
  }

  lemma WalkedNone(parts: map<nat, Bytes>, offsets: seq<nat>, expected: nat)
    ensures Walked(parts, offsets[..0], expected) == Some([])
  {
  }

  /** One more part: it must start where the bytes so far end and stay within the expected total. */
  lemma WalkedStep(parts: map<nat, Bytes>, offsets: seq<nat>, i: nat, expected: nat)
    requires i < |offsets| && (forall o :: o in offsets ==> o in parts)
    requires Walked(parts, offsets[..i], expected).Some?
    ensures offsets[i] in parts && forall o :: o in offsets[..i + 1] ==> o in parts
    ensures
      var out := Walked(parts, offsets[..i], expected).value;
      var bytes := parts[offsets[i]];
      if offsets[i] != |out| || |out| + |bytes| > expected then Walked(parts, offsets, expected).None?
      else Walked(parts, offsets[..i + 1], expected) == Some(out + bytes)
  {
    assert offsets[..i + 1][..i] == offsets[..i];
    if Walked(parts, offsets[..i + 1], expected).None? { WalkedStops(parts, offsets, i + 1, expected); }
  }

  /** A walk that has failed stays failed. */
  lemma {:induction false} WalkedStops(parts: map<nat, Bytes>, offsets: seq<nat>, n: nat, expected: nat)
    requires n <= |offsets| && forall o :: o in offsets ==> o in parts
    requires Walked(parts, offsets[..n], expected).None?
    ensures Walked(parts, offsets, expected).None?
    decreases |offsets|
  {
    if n == |offsets| {
      assert offsets[..n] == offsets;
    } else {
      assert offsets[..|offsets| - 1][..n] == offsets[..n];
      WalkedStops(parts, offsets[..|offsets| - 1], n, expected);
    }
  }
}
