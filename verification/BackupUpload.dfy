/** Backup streaming: the dump is pushed, cut into writes at will, through the header check and
    an optional encoder into a writer that uploads one part-sized buffer at a time.

    Bucket calls may fail; a failed call has no effect, and aborting an upload succeeds.
 */
module BackupUpload {
  import opened Basics

  type Bytes = seq<bv8>

  const MAGIC: Bytes := [0x52, 0x45, 0x44, 0x49, 0x53]  // "REDIS"

  function Flatten(xs: seq<Bytes>): Bytes {
    if xs == [] then [] else Flatten(xs[..|xs| - 1]) + xs[|xs| - 1]
  }

  lemma FlattenAppend(xs: seq<Bytes>, x: Bytes)
    ensures Flatten(xs + [x]) == Flatten(xs) + x
  {
    assert (xs + [x])[..|xs|] == xs;
  }

  // ------------------------------------------------------------------ the encoder

  /** A streaming encoder: what it emits for each write, and at the end. */
  datatype Codec<!S> = Codec(init: S, feed: (S, Bytes) -> (S, Bytes), flush: S -> Bytes)

  ghost function Fed<S>(c: Codec<S>, chunks: seq<Bytes>): (S, Bytes) {
    if chunks == [] then (c.init, []) else
    var (st, out) := Fed(c, chunks[..|chunks| - 1]);
    var (st', more) := c.feed(st, chunks[|chunks| - 1]);
    (st', out + more)
  }

  /** The complete encoding of a stream written in these chunks. */
  ghost function Encoded<S>(c: Codec<S>, chunks: seq<Bytes>): Bytes {
    var (st, out) := Fed(c, chunks);
    out + c.flush(st)
  }

  /** No compression. */
  function Plain(): Codec<()> { Codec((), (u: (), p) => (u, p), (u: ()) => []) }

  lemma {:induction false} PlainIsIdentity(chunks: seq<Bytes>)
    ensures Encoded(Plain(), chunks) == Flatten(chunks)
  {
    if chunks != [] {
      PlainIsIdentity(chunks[..|chunks| - 1]);
    }
  }

  // ------------------------------------------------------------------ the bucket

  /** Numbers 1..n. */
  function Numbers(n: nat): seq<nat> { seq(n, i => i + 1) }

  function Assembled(parts: map<int, Bytes>, numbers: seq<nat>): Bytes
    requires forall i :: 0 <= i < |numbers| ==> numbers[i] in parts
  {
    if numbers == [] then []
    else Assembled(parts, numbers[..|numbers| - 1]) + parts[numbers[|numbers| - 1]]
  }

  ghost function Bodies(parts: map<int, Bytes>, numbers: seq<nat>): seq<Bytes>
    requires forall i :: 0 <= i < |numbers| ==> numbers[i] in parts
  {
    seq(|numbers|, i requires 0 <= i < |numbers| => parts[numbers[i]])
  }

  lemma AboveAll(keys: set<int>) returns (n: nat)
    ensures forall k :: k in keys ==> k < n
  {
    n := 0;
    if k :| k in keys {
      var m := AboveAll(keys - {k});
      n := if k < m then m else k + 1;
      assert forall j :: j in keys ==> j == k || j in keys - {k};
    }
  }

  /** The parts recorded are the ones in the bucket, numbered from 1. */
  ghost predicate HoldsParts(m: map<int, Bytes>, built: seq<Bytes>) {
    forall k :: 1 <= k <= |built| ==> k in m && m[k] == built[k - 1]
  }

  lemma OneMorePart(m: map<int, Bytes>, built: seq<Bytes>, body: Bytes)
    requires HoldsParts(m, built)
    ensures HoldsParts(m[|built| + 1 := body], built + [body])
    ensures Numbers(|built + [body]|) == Numbers(|built|) + [|built| + 1]
  {
  }

  lemma NumbersAre(n: nat)
    ensures |Numbers(n)| == n
  {
  }

  lemma ReplacedAway(open: map<int, map<int, Bytes>>, id: int, parts: map<int, Bytes>)
    ensures open[id := parts] - {id} == open - {id}
  {
  }

  /** The requests that store an object: a single one, or the completion of an upload, with the
      part numbers it names and what was uploaded under them. */
  datatype Request = Put(key: string, body: Bytes) | Complete(key: string, numbers: seq<nat>, bodies: seq<Bytes>)

  /** The request stores these bytes: whole, if they do not fill a part, and otherwise in parts
      numbered 1..n, all but the last of exactly the part size and the last not empty. */
  ghost predicate Stores(r: Request, key: string, bytes: Bytes, partSize: nat) {
    match r
    case Put(k, body) => k == key && body == bytes && |bytes| < partSize
    case Complete(k, numbers, bodies) =>
      && k == key && numbers == Numbers(|bodies|) && bodies != [] && Flatten(bodies) == bytes
      && (forall i :: 0 <= i < |bodies| - 1 ==> |bodies[i]| == partSize)
      && 0 < |bodies[|bodies| - 1]| <= partSize
  }

  class Bucket {
    const reliable: bool
    var objects: map<string, Bytes>
    var open: map<int, map<int, Bytes>>   // multipart uploads by id, their parts by number
    ghost var stored: seq<Request>        // the requests that stored something

    constructor (reliable: bool)
      ensures this.reliable == reliable && objects == map[] && open == map[] && stored == []
    {
      this.reliable, objects, open, stored := reliable, map[], map[], [];
    }

    method PutObject(key: string, body: Bytes) returns (ok: bool)
      modifies this
      ensures open == old(open) && objects == if ok then old(objects)[key := body] else old(objects)
      ensures stored == old(stored) + if ok then [Put(key, body)] else []
      ensures reliable ==> ok
    {
      ok := *;
      ok := ok || reliable;
      if ok {
        objects := objects[key := body];
        stored := stored + [Put(key, body)];
      }
    }

    method CreateMultipartUpload() returns (id: Option<nat>)
      modifies this`open
      ensures id.None? ==> open == old(open)
      ensures id.Some? ==> id.value !in old(open) && open == old(open)[id.value := map[]]
      ensures reliable ==> id.Some?
    {
      var ok: bool := *;
      if !ok && !reliable {
        return None;
      }
      ghost var bound := AboveAll(open.Keys);
      assert bound !in open;
      var n: nat :| n !in open;
      open := open[n := map[]];
      return Some(n);
    }

    method UploadPart(id: nat, number: nat, body: Bytes) returns (ok: bool)
      requires id in open && number >= 1
      modifies this`open
      ensures open == if ok then old(open)[id := old(open)[id][number := body]] else old(open)
      ensures reliable ==> ok
    {
      ok := *;
      ok := ok || reliable;
      if ok { open := open[id := open[id][number := body]]; }
    }

    /** The bucket wants the part numbers in ascending order, and at least one. */
    method CompleteMultipartUpload(id: nat, key: string, numbers: seq<nat>) returns (ok: bool)
      requires id in open && numbers != []
      requires forall i :: 0 <= i < |numbers| ==> numbers[i] in open[id]
      requires forall i, j :: 0 <= i < j < |numbers| ==> numbers[i] < numbers[j]
      modifies this
      ensures open == if ok then old(open) - {id} else old(open)
      ensures objects == if ok then old(objects)[key := Assembled(old(open)[id], numbers)] else old(objects)
      ensures stored == old(stored) + if ok then [Complete(key, numbers, Bodies(old(open)[id], numbers))] else []
      ensures reliable ==> ok
    {
      ok := *;
      ok := ok || reliable;
      if ok {
        objects := objects[key := Assembled(open[id], numbers)];
        stored := stored + [Complete(key, numbers, Bodies(open[id], numbers))];
        open := open - {id};
      }
    }

    method AbortMultipartUpload(id: nat)
      modifies this`open
      ensures open == old(open) - {id}
    {
      open := open - {id};
    }
  }

  // ------------------------------------------------------------------ s3UploadWriter

  class UploadWriter {
    const bucket: Bucket
    const key: string
    const partSize: nat
    var buf: Bytes
    var uploadID: Option<nat>
    var parts: seq<nat>
    var total: nat
    var failed: bool
    ghost var sent: Bytes            // everything accepted so far
    ghost var built: seq<Bytes>      // the parts uploaded so far
    ghost const objects0: map<string, Bytes>
    ghost const open0: map<int, map<int, Bytes>>
    ghost const stored0: seq<Request>

    /** Nothing is stored yet, and at most this writer's own upload is open. */
    ghost predicate Clean()
      reads this, bucket
    {
      && partSize > 0 && bucket.objects == objects0 && bucket.stored == stored0
      && (uploadID.None? ==> bucket.open == open0)
      && (uploadID.Some? ==>
            uploadID.value !in open0 && uploadID.value in bucket.open && bucket.open - {uploadID.value} == open0)
    }

    /** What was accepted is in the uploaded parts and the buffer. */
    ghost predicate Aligned()
      reads this, bucket
    {
      && Clean()
      && parts == Numbers(|built|)
      && |Flatten(built)| == total
      && (uploadID.None? ==> built == [])
      && (uploadID.Some? ==> HoldsParts(bucket.open[uploadID.value], built))
      && (forall i :: 0 <= i < |built| ==> |built[i]| == partSize)
      && sent == Flatten(built) + buf
    }

    ghost predicate Valid()
      reads this, bucket
    {
      Aligned() && |buf| < partSize && (uploadID.Some? ==> built != []) && (bucket.reliable ==> !failed)
    }

    constructor (bucket: Bucket, key: string, partSize: nat)
      requires partSize > 0
      ensures Valid() && sent == [] && this.bucket == bucket && this.key == key && this.partSize == partSize
      ensures objects0 == bucket.objects && open0 == bucket.open && stored0 == bucket.stored
    {
      this.bucket, this.key, this.partSize := bucket, key, partSize;
      buf, uploadID, parts, total, failed := [], None, [], 0, false;
      sent, built, objects0, open0, stored0 := [], [], bucket.objects, bucket.open, bucket.stored;
    }

    /** The upload is created with the first part. */
    method Begin() returns (ok: bool)
      requires Aligned()
      modifies this`uploadID, this`failed, bucket
      ensures Clean() && (ok ==> Aligned() && uploadID.Some? && failed == old(failed))
      ensures bucket.reliable ==> ok
    {
      if uploadID.Some? {
        return true;
      }
      hide Flatten, Numbers;
      var id := bucket.CreateMultipartUpload();
      ok := id.Some?;
      if ok {
        uploadID := id;
        assert bucket.open - {id.value} == open0;
      } else {
        failed := true;
      }
    }

    method FlushPart() returns (ok: bool)
      requires Aligned() && 0 < |buf| <= partSize
      requires bucket.reliable ==> !failed
      modifies this, bucket
      ensures Clean() && sent == old(sent)
      ensures ok ==> uploadID.Some? && buf == [] && built == old(built) + [old(buf)] && failed == old(failed)
      ensures ok ==> parts == Numbers(|built|) && total == old(total) + |old(buf)| && sent == Flatten(built)
      ensures ok ==> HoldsParts(bucket.open[uploadID.value], built)
      ensures bucket.reliable ==> ok
    {
      hide Flatten, Numbers, HoldsParts;
      ok := Begin();
      if !ok {
        return;
      }
      FlattenAppend(built, buf);
      OneMorePart(bucket.open[uploadID.value], built, buf);
      ReplacedAway(bucket.open, uploadID.value, bucket.open[uploadID.value][|built| + 1 := buf]);
      NumbersAre(|built|);
      var number := |parts| + 1;
      ok := bucket.UploadPart(uploadID.value, number, buf);
      if !ok {
        failed := true;
        return;
      }
      parts := parts + [number];
      total := total + |buf|;
      built := built + [buf];
      buf := [];
    }

    method Write(p0: Bytes) returns (ok: bool)
      requires Valid()
      modifies this, bucket
      ensures Clean()
      ensures ok ==> Valid() && sent == old(sent) + p0
      ensures bucket.reliable ==> ok
    {
      hide Flatten, Numbers, HoldsParts;
      var p := p0;
      while |p| > 0
        invariant Valid() && sent + p == old(sent) + p0
      {
        var n := if partSize - |buf| > |p| then |p| else partSize - |buf|;
        ghost var before := sent;
        buf := buf + p[..n];
        sent := sent + p[..n];
        assert before + p == sent + p[n..];
        p := p[n..];
        if |buf| == partSize {
          ok := FlushPart();
          if !ok {
            return;
          }
        }
      }
      return true;
    }

    /** Stores what was written with one request, and reports its length. */
    method Finish() returns (size: Option<nat>)
      requires Valid()
      modifies this, bucket
      ensures size.None? ==> Clean()
      ensures size.Some? ==>
        && bucket.objects == objects0[key := old(sent)] && bucket.open == open0 && size.value == |old(sent)|
        && |bucket.stored| == |stored0| + 1 && bucket.stored[..|stored0|] == stored0
        && Stores(bucket.stored[|stored0|], key, old(sent), partSize)
      ensures bucket.reliable ==> size.Some?
    {
      if uploadID.None? {
        assert built == [] && sent == buf;
        var ok := bucket.PutObject(key, buf);
        failed := failed || !ok;
        return if ok then Some(|buf|) else None;
      }
      if |buf| > 0 {
        var ok := FlushPart();
        if !ok {
          return None;
        }
      }
      size := Complete();
    }

    /** The parts are all there. */
    method Complete() returns (size: Option<nat>)
      requires Clean() && uploadID.Some? && built != [] && HoldsParts(bucket.open[uploadID.value], built)
      requires parts == Numbers(|built|) && sent == Flatten(built) && total == |sent|
      requires (forall i :: 0 <= i < |built| - 1 ==> |built[i]| == partSize) && 0 < |built[|built| - 1]| <= partSize
      modifies this, bucket
      ensures size.None? ==> Clean()
      ensures size.Some? ==>
        && bucket.objects == objects0[key := old(sent)] && bucket.open == open0 && size.value == |old(sent)|
        && |bucket.stored| == |stored0| + 1 && bucket.stored[..|stored0|] == stored0
        && Stores(bucket.stored[|stored0|], key, old(sent), partSize)
      ensures bucket.reliable ==> size.Some?
    {
      AssembledIsFlattened(bucket.open[uploadID.value], built);
      assert Bodies(bucket.open[uploadID.value], parts) == built;
      var ok := bucket.CompleteMultipartUpload(uploadID.value, key, parts);
      failed := failed || !ok;
      size := if ok then Some(total) else None;
    }

    /** Whatever failed, aborting leaves the bucket as it was found. */
    method Abort()
      requires Clean()
      modifies this, bucket
      ensures bucket.objects == objects0 && bucket.open == open0 && bucket.stored == stored0
    {
      if uploadID.Some? {
        bucket.AbortMultipartUpload(uploadID.value);
        uploadID := None;
      }
    }
  }

  lemma {:induction false} AssembledIsFlattened(parts: map<int, Bytes>, built: seq<Bytes>)
    requires HoldsParts(parts, built)
    ensures forall i :: 0 <= i < |built| ==> Numbers(|built|)[i] in parts
    ensures Assembled(parts, Numbers(|built|)) == Flatten(built)
  {
    if built != [] {
      AssembledIsFlattened(parts, built[..|built| - 1]);
      assert Numbers(|built|)[..|built| - 1] == Numbers(|built| - 1);
    }
  }

  // ------------------------------------------------------------------ the pipeline

  /** The encoder (or none) in front of the upload. */
  class Sink<S> {
    const codec: Codec<S>
    const upload: UploadWriter
    var st: S
    ghost var chunks: seq<Bytes>

    ghost predicate Valid()
      reads this, upload, upload.bucket
    {
      upload.Valid() && Fed(codec, chunks) == (st, upload.sent)
    }

    constructor (codec: Codec<S>, upload: UploadWriter)
      requires upload.Valid() && upload.sent == []
      ensures Valid() && chunks == [] && this.codec == codec && this.upload == upload
    {
      this.codec, this.upload, st, chunks := codec, upload, codec.init, [];
    }

    method Write(p: Bytes) returns (ok: bool)
      requires Valid()
      modifies this, upload, upload.bucket
      ensures upload.Clean()
      ensures ok ==> Valid() && chunks == old(chunks) + [p]
      ensures upload.bucket.reliable ==> ok
    {
      var (st', out) := codec.feed(st, p);
      ok := upload.Write(out);
      assert (chunks + [p])[..|chunks|] == chunks;
      st, chunks := st', chunks + [p];
    }

    method Close() returns (ok: bool)
      requires Valid()
      modifies upload, upload.bucket
      ensures upload.Clean()
      ensures ok ==> upload.Valid() && upload.sent == Encoded(codec, chunks)
      ensures upload.bucket.reliable ==> ok
    {
      ok := upload.Write(codec.flush(st));
    }
  }

  /** The first five bytes, or as many as there are. */
  function Header(input: Bytes): Bytes { input[..if |input| < 5 then |input| else 5] }

  lemma HeaderGrows(input: Bytes, p: Bytes, n: nat)
    requires |input| < 5 && n == if 5 - |input| < |p| then 5 - |input| else |p|
    ensures Header(input) == input && Header(input + p) == input + p[..n]
    ensures n < |p| ==> |input| + n == 5
    ensures input + p == (input + p[..n]) + p[n..] && (n == |p| ==> input + p == input + p[..n])
  {
  }

  lemma HeaderStays(input: Bytes, p: Bytes)
    requires |input| >= 5
    ensures Header(input + p) == Header(input) && (p == [] ==> input + p == input)
  {
  }

  /** rdbHeaderWriter: holds the first five bytes back until they are known to be the magic. */
  class HeaderWriter<S> {
    const dst: Sink<S>
    var header: Bytes
    var total: nat
    var rejected: bool
    ghost var input: Bytes

    ghost predicate Valid()
      reads this, dst, dst.upload, dst.upload.bucket
    {
      && dst.Valid() && !rejected && total == |input|
      && header == Header(input)
      && (|header| < 5 ==> dst.chunks == [])
      && (|header| == 5 ==> header == MAGIC && Flatten(dst.chunks) == input)
    }

    constructor (dst: Sink<S>)
      requires dst.Valid() && dst.chunks == []
      ensures Valid() && input == [] && this.dst == dst
    {
      this.dst, header, total, rejected, input := dst, [], 0, false, [];
    }

    /** Bytes handed on to the sink. */
    method Pass(q: Bytes) returns (ok: bool)
      requires dst.Valid()
      modifies dst, dst.upload, dst.upload.bucket
      ensures dst.upload.Clean()
      ensures ok ==> dst.Valid() && Flatten(dst.chunks) == old(Flatten(dst.chunks)) + q
      ensures dst.upload.bucket.reliable ==> ok
    {
      FlattenAppend(dst.chunks, q);
      ok := dst.Write(q);
    }

    method Write(p: Bytes) returns (ok: bool)
      requires Valid()
      modifies this, dst, dst.upload, dst.upload.bucket
      ensures dst.upload.Clean() && input == old(input) + p
      ensures ok ==> Valid()
      ensures rejected ==> !ok && |input| >= 5 && input[..5] != MAGIC && dst.chunks == []
      ensures !ok ==> rejected || !dst.upload.bucket.reliable
    {
      assert dst.upload.Clean() && if |input| < 5 then header == input else |header| == 5;
      if |input| >= 5 {
        HeaderStays(input, p);
      }
      hide Flatten, Fed, Sink.Valid, UploadWriter.Clean, Header;
      total := total + |p|;
      input := input + p;
      var rest := p;
      if |header| < 5 {
        var n := if 5 - |header| < |p| then 5 - |header| else |p|;
        HeaderGrows(old(input), p, n);
        header := header + p[..n];
        rest := p[n..];
        if |header| < 5 {
          return true;
        }
        if header != MAGIC {
          rejected := true;
          return false;
        }
        NothingYet(dst.chunks);
        ok := Pass(header);
        if !ok {
          return;
        }
      }
      if |rest| > 0 {
        ok := Pass(rest);
        if !ok {
          return;
        }
      }
      return true;
    }
  }

  lemma NothingYet(chunks: seq<Bytes>)
    ensures chunks == [] ==> Flatten(chunks) == []
  {
  }

  datatype Failure = InvalidFormat | UploadFailed | ReadFailed | EmptyDump
  datatype Result = Stored(size: nat) | Failed(error: Failure)

  /** streamBackupToS3: the exec delivers the dump in `writes`, stopping at the first write error,
      and may itself fail after the last. Either one object is stored, the encoding of exactly
      the bytes delivered, or the bucket is as before. */
  method StreamBackup<S>(bucket: Bucket, key: string, codec: Codec<S>, partSize: nat, writes: seq<Bytes>,
      execFails: bool)
    returns (r: Result, ghost chunks: seq<Bytes>)
    requires partSize > 0
    modifies bucket
    ensures bucket.open == old(bucket.open)
    ensures r.Stored? ==>
      && [0x52, 0x45, 0x44, 0x49, 0x53] <= Flatten(writes) && Flatten(chunks) == Flatten(writes)
      && bucket.objects == old(bucket.objects)[key := Encoded(codec, chunks)]
      && r.size == |Encoded(codec, chunks)|
      && |bucket.stored| == |old(bucket.stored)| + 1 && bucket.stored[..|old(bucket.stored)|] == old(bucket.stored)
      && Stores(bucket.stored[|old(bucket.stored)|], key, Encoded(codec, chunks), partSize)
    ensures r.Failed? ==> bucket.objects == old(bucket.objects) && bucket.stored == old(bucket.stored)
    ensures bucket.reliable && !execFails ==> (r.Stored? <==> [0x52, 0x45, 0x44, 0x49, 0x53] <= Flatten(writes))
    ensures bucket.reliable && !execFails && r.Failed? ==>
      r.error == if Flatten(writes) == [] then EmptyDump else InvalidFormat
  {
    var upload := new UploadWriter(bucket, key, partSize);
    var sink := new Sink(codec, upload);
    var validated := new HeaderWriter(sink);
    chunks := [];
    var delivered := true;
    var i := 0;
    assert writes[..0] == [];
    while i < |writes| && delivered
      invariant 0 <= i <= |writes| && validated.dst == sink && sink.upload == upload && upload.bucket == bucket
      invariant sink.codec == codec && upload.key == key && upload.partSize == partSize
      invariant upload.objects0 == old(bucket.objects) && upload.open0 == old(bucket.open) &&
        upload.stored0 == old(bucket.stored)
      invariant fresh(upload) && fresh(sink) && fresh(validated)
      invariant upload.Clean() && validated.input == Flatten(writes[..i])
      invariant delivered ==> validated.Valid()
      invariant validated.rejected ==> !delivered && |validated.input| >= 5 && validated.input[..5] != MAGIC
      invariant !delivered ==> validated.rejected || !bucket.reliable
    {
      assert writes[..i + 1][..i] == writes[..i];
      delivered := validated.Write(writes[i]);
      i := i + 1;
    }
    FlattenPrefix(writes, i);
    if !delivered || execFails {
      upload.Abort();
      r := Failed(if validated.rejected then InvalidFormat else if upload.failed then UploadFailed else ReadFailed);
      return;
    }
    assert writes[..i] == writes;
    if validated.total == 0 {
      upload.Abort();
      return Failed(EmptyDump), chunks;
    }
    if |validated.header| < 5 {
      upload.Abort();
      return Failed(InvalidFormat), chunks;
    }
    chunks := sink.chunks;
    var ok := sink.Close();
    if !ok {
      upload.Abort();
      return Failed(UploadFailed), chunks;
    }
    var size := upload.Finish();
    if size.None? {
      upload.Abort();
      return Failed(UploadFailed), chunks;
    }
    return Stored(size.value), chunks;
  }

  lemma {:induction false} FlattenPrefix(writes: seq<Bytes>, i: nat)
    requires i <= |writes|
    ensures Flatten(writes[..i]) <= Flatten(writes)
    decreases |writes| - i
  {
    assert writes[..|writes|] == writes;
    if i < |writes| {
      FlattenPrefix(writes, i + 1);
      assert writes[..i + 1][..i] == writes[..i];
    }
  }
}
