/** Which objects of a bucket belong to a RedisBackup, and pruning them to the retention count. */
module Retention {
  import opened Basics
  import opened Text

  // ------------------------------------------------------------------ path.Join

  /** The element stack of path.Clean: "." and empty elements vanish, ".." takes one element back
      where there is one to take, and stays only at the front of a relative path. */
  function Push(rooted: bool, stack: seq<string>, c: string): seq<string> {
    if c == "" || c == "." then stack
    else if c != ".." then stack + [c]
    else if stack != [] && stack[|stack| - 1] != ".." then stack[..|stack| - 1]
    else if rooted then stack
    else stack + [c]
  }

  function Reduce(rooted: bool, stack: seq<string>, comps: seq<string>): seq<string>
    decreases |comps|
  {
    if comps == [] then stack else Reduce(rooted, Push(rooted, stack, comps[0]), comps[1..])
  }

  function Clean(path: string): string {
    var rooted := path != "" && path[0] == '/';
    var body := Join(Reduce(rooted, [], Split(path, '/')), '/');
    if rooted then "/" + body else if body == "" then "." else body
  }

  function NonEmpty(elems: seq<string>): seq<string> {
    if elems == [] then [] else (if elems[0] == "" then [] else [elems[0]]) + NonEmpty(elems[1..])
  }

  function PathJoin(elems: seq<string>): string {
    if NonEmpty(elems) == [] then "" else Clean(Join(NonEmpty(elems), '/'))
  }

  // ------------------------------------------------------------------ backupObjectPrefix

  datatype Backup = Backup(specPrefix: string, namespace: string, cluster: string, name: string)

  predicate GoodSegment(s: string) {
    s != "" && s != "." && s != ".." && '/' !in s && '*' !in s
  }

  predicate Accepted(b: Backup) {
    GoodSegment(b.namespace) && GoodSegment(b.cluster) && GoodSegment(b.name)
  }

  function ObjectPrefix(b: Backup): Option<string> {
    if Accepted(b) then Some(PathJoin([b.specPrefix, b.namespace, b.cluster, b.name]) + "/") else None
  }

  predicate HasSuffix(s: string, t: string) { |t| <= |s| && s[|s| - |t|..] == t }

  /** isBackupObject: a direct child of the prefix named backup-*.rdb or backup-*.rdb.gz. */
  predicate IsBackupObject(prefix: string, key: string) {
    prefix <= key &&
    var name := key[|prefix|..];
    name != "" && '/' !in name && "backup-" <= name && (HasSuffix(name, ".rdb") || HasSuffix(name, ".rdb.gz"))
  }

  predicate NamedLike(prefix: string, key: string, mid: string) {
    '/' !in mid && (key == prefix + ("backup-" + mid + ".rdb") || key == prefix + ("backup-" + mid + ".rdb.gz"))
  }

  lemma SuffixAfterHead(name: string, ext: string)
    requires "backup-" <= name && HasSuffix(name, ext) && ext != "" && ext[0] == '.'
    ensures |name| - |ext| >= 7 && name == "backup-" + name[7..|name| - |ext|] + ext
  {
    var cut := |name| - |ext|;
    assert name[cut] == name[cut..][0] == '.';
    assert forall i :: 0 <= i < 7 ==> name[i] == "backup-"[i] != '.';
  }

  lemma CandidateIsNamed(prefix: string, key: string) returns (mid: string)
    requires IsBackupObject(prefix, key)
    ensures NamedLike(prefix, key, mid)
  {
    var name := key[|prefix|..];
    var ext := if HasSuffix(name, ".rdb") then ".rdb" else ".rdb.gz";
    SuffixAfterHead(name, ext);
    mid := name[7..|name| - |ext|];
    assert key == prefix + name;
  }

  /** A candidate's name is backup-<anything>.rdb, compressed or not, right under the prefix. */
  lemma CandidateExactlyWhen(prefix: string, key: string)
    ensures IsBackupObject(prefix, key) <==> exists mid :: NamedLike(prefix, key, mid)
  {
    if IsBackupObject(prefix, key) {
      var mid := CandidateIsNamed(prefix, key);
    }
    if mid :| NamedLike(prefix, key, mid) {
      hide IsBackupObject;
      var ext := if key == prefix + ("backup-" + mid + ".rdb") then ".rdb" else ".rdb.gz";
      ChildIsCandidate(prefix, "backup-", mid, ext);
    }
  }

  /** What the API server takes for a name is accepted. */
  lemma DnsNamesAreAccepted(s: string)
    requires s != "" && forall i :: 0 <= i < |s| ==> 'a' <= s[i] <= 'z' || '0' <= s[i] <= '9' || s[i] == '-'
    ensures GoodSegment(s)
  {
    assert s[0] != '.';
  }

  function Extension(compressed: bool): string { if compressed then ".rdb.gz" else ".rdb" }

  function UploadKey(prefix: string, timestamp: string, compressed: bool): string {
    prefix + ("backup-" + timestamp + Extension(compressed))
  }

  lemma {:induction false} ReduceGood(rooted: bool, stack: seq<string>, more: seq<string>)
    requires forall i :: 0 <= i < |more| ==> GoodSegment(more[i])
    ensures Reduce(rooted, stack, more) == stack + more
    decreases |more|
  {
    if more != [] {
      ReduceGood(rooted, stack + [more[0]], more[1..]);
      assert stack + more == stack + [more[0]] + more[1..];
    }
  }

  /** Ordinary elements at the end of a path stay, whatever comes before them. */
  lemma {:induction false} ReduceNormal(rooted: bool, stack: seq<string>, comps: seq<string>, more: seq<string>)
    requires forall i :: 0 <= i < |more| ==> GoodSegment(more[i])
    ensures Reduce(rooted, stack, comps + more) == Reduce(rooted, stack, comps) + more
    decreases |comps|
  {
    if comps == [] {
      assert comps + more == more;
      ReduceGood(rooted, stack, more);
    } else {
      assert (comps + more)[1..] == comps[1..] + more;
      ReduceNormal(rooted, Push(rooted, stack, comps[0]), comps[1..], more);
    }
  }

  lemma {:induction false} ReduceFree(rooted: bool, stack: seq<string>, comps: seq<string>)
    requires AllFree(stack, '/') && AllFree(comps, '/')
    ensures AllFree(Reduce(rooted, stack, comps), '/')
    decreases |comps|
  {
    if comps != [] {
      ReduceFree(rooted, Push(rooted, stack, comps[0]), comps[1..]);
    }
  }

  ghost function Tail(b: Backup): seq<string> { [b.namespace, b.cluster, b.name] }

  lemma JoinTail(p: string, tail: seq<string>)
    requires tail != []
    ensures Join([p] + tail, '/') == p + ['/'] + Join(tail, '/')
  {
    assert ([p] + tail)[1..] == tail;
  }

  lemma PathElements(b: Backup)
    requires Accepted(b)
    ensures NonEmpty([b.specPrefix, b.namespace, b.cluster, b.name]) ==
      if b.specPrefix == "" then Tail(b) else [b.specPrefix] + Tail(b)
  {
    var elems := [b.specPrefix] + Tail(b);
    assert elems == [b.specPrefix, b.namespace, b.cluster, b.name] && elems[1..] == Tail(b);
    NonEmptyGood(Tail(b));
  }

  /** The elements of the joined path before it is cleaned. */
  lemma RawPath(b: Backup) returns (raw: string, head: seq<string>)
    requires Accepted(b)
    ensures raw == Join(NonEmpty([b.specPrefix, b.namespace, b.cluster, b.name]), '/')
    ensures AllFree(head, '/') && Split(raw, '/') == head + Tail(b)
  {
    var tail := Tail(b);
    var elems := [b.specPrefix] + tail;
    PathElements(b);
    hide NonEmpty;
    SplitJoin(tail, '/');
    if b.specPrefix == "" {
      raw, head := Join(tail, '/'), [];
    } else {
      raw, head := Join(elems, '/'), Split(b.specPrefix, '/');
      JoinTail(b.specPrefix, tail);
      SplitConcat(b.specPrefix, Join(tail, '/'), '/');
      SplitIsFree(b.specPrefix, '/');
    }
  }

  /** A path with a slash after it, and one before it if it is rooted. */
  lemma SplitBody(body: string, parts: seq<string>, rooted: bool)
    requires Split(body, '/') == parts
    ensures Split(if rooted then "/" + body + "/" else body + "/", '/') == (if rooted then [""] else []) + parts + [""]
  {
    SplitConcat(body, "", '/');
    assert body + ['/'] + "" == body + "/";
    if rooted {
      SplitConcat("", body + "/", '/');
      assert "" + ['/'] + (body + "/") == "/" + body + "/";
    }
  }

  /** Whatever the spec prefix, cleaned or not: the object prefix ends in
      "<namespace>/<cluster>/<name>/". */
  lemma PrefixEndsInIdentity(b: Backup) returns (front: seq<string>)
    requires Accepted(b)
    ensures Split(ObjectPrefix(b).value, '/') == front + Tail(b) + [""]
  {
    var raw, head := RawPath(b);
    var tail := Tail(b);
    var rooted := raw != "" && raw[0] == '/';
    ReduceNormal(rooted, [], head, tail);
    ReduceFree(rooted, [], head);
    var stack := Reduce(rooted, [], head);
    var body := Join(stack + tail, '/');
    SplitJoin(stack + tail, '/');
    JoinIsNotEmpty(stack, tail);
    SplitBody(body, stack + tail, rooted);
    hide Split, Join, Reduce, AllFree, NonEmpty;
    front := (if rooted then [""] else []) + stack;
    assert front + tail + [""] == (if rooted then [""] else []) + (stack + tail) + [""];
  }

  lemma NonEmptyGood(tail: seq<string>)
    requires forall i :: 0 <= i < |tail| ==> tail[i] != ""
    ensures NonEmpty(tail) == tail
  {
    if tail != [] {
      NonEmptyGood(tail[1..]);
      assert [tail[0]] + tail[1..] == tail;
    }
  }

  lemma {:induction false} JoinIsNotEmpty(stack: seq<string>, tail: seq<string>)
    requires tail != [] && forall i :: 0 <= i < |tail| ==> tail[i] != ""
    ensures Join(stack + tail, '/') != ""
  {
    var all := stack + tail;
    if |all| == 1 {
      assert all[0] == tail[0];
    }
  }

  lemma {:induction false} JoinConcat(xs: seq<string>, ys: seq<string>)
    requires xs != [] && ys != []
    ensures Join(xs + ys, '/') == Join(xs, '/') + "/" + Join(ys, '/')
  {
    if |xs| == 1 {
      assert (xs + ys)[1..] == ys;
    } else {
      assert (xs + ys)[1..] == xs[1..] + ys;
      JoinConcat(xs[1..], ys);
    }
  }

  lemma GoodPathIsClean(comps: seq<string>)
    requires comps != [] && forall i :: 0 <= i < |comps| ==> GoodSegment(comps[i])
    ensures Clean(Join(comps, '/')) == Join(comps, '/') != ""
  {
    SplitJoin(comps, '/');
    ReduceGood(false, [], comps);
    JoinIsNotEmpty([], comps);
    assert [] + comps == comps;
    assert Join(comps, '/')[0] == comps[0][0];
    hide Reduce, Split;
  }

  /** The joined path before it is cleaned. */
  lemma PlainPath(b: Backup, segments: seq<string>)
    requires Accepted(b) && b.specPrefix == Join(segments, '/')
    requires forall i :: 0 <= i < |segments| ==> GoodSegment(segments[i])
    ensures
      var elems := NonEmpty([b.specPrefix, b.namespace, b.cluster, b.name]);
      elems != [] && Join(elems, '/') == Join(segments + Tail(b), '/') ==
        (if segments == [] then "" else b.specPrefix + "/") + Join(Tail(b), '/')
  {
    var tail := Tail(b);
    PathElements(b);
    hide Clean, NonEmpty;
    if segments == [] {
      assert segments + tail == tail;
    } else {
      GoodPathIsClean(segments);
      hide Join;
      JoinConcat(segments, tail);
      JoinTail(b.specPrefix, tail);
    }
  }

  /** A spec prefix of ordinary segments stays in front as it is. */
  lemma PlainPrefixStays(b: Backup, segments: seq<string>)
    requires Accepted(b) && b.specPrefix == Join(segments, '/')
    requires forall i :: 0 <= i < |segments| ==> GoodSegment(segments[i])
    ensures ObjectPrefix(b) == Some((if segments == [] then "" else b.specPrefix + "/") +
      Join([b.namespace, b.cluster, b.name], '/') + "/")
  {
    hide Clean, Join, NonEmpty;
    PlainPath(b, segments);
    GoodPathIsClean(segments + Tail(b));
  }

  /** Equal object prefixes belong to the same namespace, cluster and backup. */
  lemma PrefixDeterminesIdentity(a: Backup, b: Backup)
    requires Accepted(a) && Accepted(b) && ObjectPrefix(a) == ObjectPrefix(b)
    ensures a.namespace == b.namespace && a.cluster == b.cluster && a.name == b.name
  {
    var fa := PrefixEndsInIdentity(a);
    var fb := PrefixEndsInIdentity(b);
    var x, y := fa + Tail(a) + [""], fb + Tail(b) + [""];
    assert x == y && |fa| == |fb|;
    assert x[|fa|] == a.namespace && y[|fb|] == b.namespace;
    assert x[|fa| + 1] == a.cluster && y[|fb| + 1] == b.cluster;
    assert x[|fa| + 2] == a.name && y[|fb| + 2] == b.name;
  }

  /** A key is a direct child of at most one prefix. */
  lemma DirectChildOfOne(p: string, q: string, key: string)
    requires p != "" && q != "" && p[|p| - 1] == '/' && q[|q| - 1] == '/'
    requires IsBackupObject(p, key) && IsBackupObject(q, key)
    ensures p == q
  {
    BeyondPrefixIsFree(p, key);
    BeyondPrefixIsFree(q, key);
    assert key[|q| - 1] == '/' && key[|p| - 1] == '/';
    assert p == key[..|p|] && q == key[..|q|];
  }

  lemma BeyondPrefixIsFree(p: string, key: string)
    requires IsBackupObject(p, key)
    ensures forall j :: |p| <= j < |key| ==> key[j] != '/'
  {
    forall j | |p| <= j < |key| ensures key[j] != '/' {
      assert key[|p|..][j - |p|] == key[j];
    }
  }

  /** No object key is a retention candidate of two different RedisBackups. */
  lemma NoObjectIsShared(a: Backup, b: Backup, key: string)
    requires Accepted(a) && Accepted(b)
    requires IsBackupObject(ObjectPrefix(a).value, key) && IsBackupObject(ObjectPrefix(b).value, key)
    ensures a.namespace == b.namespace && a.cluster == b.cluster && a.name == b.name
  {
    DirectChildOfOne(ObjectPrefix(a).value, ObjectPrefix(b).value, key);
    PrefixDeterminesIdentity(a, b);
  }

  /** Every uploaded key is a candidate of its own backup. */
  lemma UploadedKeyIsOwn(b: Backup, timestamp: string, compressed: bool)
    requires Accepted(b) && '/' !in timestamp
    ensures IsBackupObject(ObjectPrefix(b).value, UploadKey(ObjectPrefix(b).value, timestamp, compressed))
  {
    ChildIsCandidate(ObjectPrefix(b).value, "backup-", timestamp, Extension(compressed));
  }

  lemma ChildIsCandidate(prefix: string, head: string, mid: string, ext: string)
    requires '/' !in head && '/' !in mid && '/' !in ext
    requires head == "backup-" && (ext == ".rdb" || ext == ".rdb.gz")
    ensures IsBackupObject(prefix, prefix + (head + mid + ext))
  {
    var name := head + mid + ext;
    assert (prefix + name)[|prefix|..] == name;
    assert name[|head + mid|..] == ext;
  }

  // ------------------------------------------------------------------ cleanupOldBackups

  datatype Object = Object(key: string, modified: int)

  /** Oldest first; the key breaks ties. */
  predicate Before(a: Object, b: Object) {
    a.modified < b.modified || (a.modified == b.modified && Leq(a.key, b.key))
  }

  lemma BeforeIsTotalOrder()
    ensures TotalOrder(Before)
  {
    LeqIsTotalOrder();
  }

  function Own(prefix: string, objs: seq<Object>): seq<Object> {
    if objs == [] then [] else
    var last := objs[|objs| - 1];
    Own(prefix, objs[..|objs| - 1]) + (if IsBackupObject(prefix, last.key) then [last] else [])
  }

  ghost function Listed(pages: seq<Option<seq<Object>>>): seq<Object> {
    if pages == [] then [] else
    var last := pages[|pages| - 1];
    Listed(pages[..|pages| - 1]) + (if last.Some? then last.value else [])
  }

  /** del is exactly the |own| - k oldest of own, oldest first. */
  ghost predicate OldestBeyond(own: seq<Object>, k: nat, del: seq<Object>) {
    && |del| == (if |own| > k then |own| - k else 0)
    && SortedBy(del, Before)
    && exists kept: seq<Object> ::
         && multiset(del) + multiset(kept) == multiset(own)
         && forall d, e :: d in del && e in kept ==> Before(d, e)
  }

  lemma {:induction false} OwnConcat(prefix: string, a: seq<Object>, b: seq<Object>)
    ensures Own(prefix, a + b) == Own(prefix, a) + Own(prefix, b)
    decreases |b|
  {
    if b == [] {
      assert a + b == a;
    } else {
      assert (a + b)[..|a + b| - 1] == a + b[..|b| - 1];
      OwnConcat(prefix, a, b[..|b| - 1]);
    }
  }

  lemma {:induction false} OwnIsOwn(prefix: string, objs: seq<Object>)
    ensures forall o :: o in Own(prefix, objs) ==> o in objs && IsBackupObject(prefix, o.key)
  {
    if objs != [] { OwnIsOwn(prefix, objs[..|objs| - 1]); }
  }

  /** Own keeps the candidates, each as often as it is there. */
  lemma {:induction false} OwnIsExactly(prefix: string, objs: seq<Object>, o: Object)
    ensures multiset(Own(prefix, objs))[o] == if IsBackupObject(prefix, o.key) then multiset(objs)[o] else 0
  {
    if objs != [] {
      hide IsBackupObject;
      OwnIsExactly(prefix, objs[..|objs| - 1], o);
      assert objs == objs[..|objs| - 1] + [objs[|objs| - 1]];
    }
  }

  /** The listing is everything on every page. */
  lemma {:induction false} ListedIsExactly(pages: seq<Option<seq<Object>>>, o: Object)
    requires None !in pages
    ensures o in Listed(pages) <==> exists i :: 0 <= i < |pages| && o in pages[i].value
  {
    if pages != [] {
      var init, last := pages[..|pages| - 1], pages[|pages| - 1];
      ListedIsExactly(init, o);
      assert o in Listed(pages) <==> o in Listed(init) || o in last.value;
      if o in Listed(init) {
        var i :| 0 <= i < |init| && o in init[i].value;
        assert o in pages[i].value;
      }
      if i :| 0 <= i < |pages| && o in pages[i].value {
        assert i < |init| ==> o in init[i].value;
      }
    }
  }

  /** The objects of a listing split into those to delete and those to keep: no more than k are kept,
      fewer only if there are no more, and all that is deleted is older than all that is kept, or as
      old with an earlier key. */
  ghost predicate KeepsTheNewest(own: seq<Object>, k: nat, del: seq<Object>, kept: seq<Object>) {
    && multiset(del) + multiset(kept) == multiset(own)
    && |kept| == (if |own| < k then |own| else k)
    && forall d, e :: d in del && e in kept ==>
         d.modified < e.modified || (d.modified == e.modified && Leq(d.key, e.key))
  }

  lemma OldestBeyondKeepsTheNewest(own: seq<Object>, k: nat, del: seq<Object>) returns (kept: seq<Object>)
    requires OldestBeyond(own, k, del)
    ensures KeepsTheNewest(own, k, del, kept)
  {
    kept :| multiset(del) + multiset(kept) == multiset(own) && forall d, e :: d in del && e in kept ==> Before(d, e);
    assert |multiset(del)| == |del| && |multiset(kept)| == |kept| && |multiset(own)| == |own|;
  }

  lemma SortedPrefixIsOldest(own: seq<Object>, k: nat) returns (kept: seq<Object>)
    ensures
      var sorted := Sort(own, Before);
      var del := sorted[..if |sorted| > k then |sorted| - k else 0];
      OldestBeyond(own, k, del) && KeepsTheNewest(own, k, del, kept)
  {
    BeforeIsTotalOrder();
    SortSorts(own, Before);
    var s := Sort(own, Before);
    hide Before, Sort, SortedBy, TotalOrder, OldestBeyond, KeepsTheNewest;
    SameSize(own, s);
    PrefixIsOldest(own, k, s);
    kept := OldestBeyondKeepsTheNewest(own, k, s[..if |s| > k then |s| - k else 0]);
  }

  lemma SameSize(xs: seq<Object>, ys: seq<Object>)
    requires multiset(xs) == multiset(ys)
    ensures |xs| == |ys|
  {
    assert |xs| == |multiset(xs)|;
    assert |ys| == |multiset(ys)|;
  }

  lemma PrefixIsOldest(own: seq<Object>, k: nat, s: seq<Object>)
    requires SortedBy(s, Before) && multiset(s) == multiset(own) && |s| == |own|
    ensures OldestBeyond(own, k, s[..if |s| > k then |s| - k else 0])
  {
    var n := if |s| > k then |s| - k else 0;
    CutIsOldest(s, n);
    hide Before, SortedBy;
    var del, kept := s[..n], s[n..];
    assert multiset(del) + multiset(kept) == multiset(own);
  }

  lemma CutIsOldest(s: seq<Object>, n: nat)
    requires SortedBy(s, Before) && n <= |s|
    ensures SortedBy(s[..n], Before)
    ensures multiset(s[..n]) + multiset(s[n..]) == multiset(s)
    ensures forall d, e :: d in s[..n] && e in s[n..] ==> Before(d, e)
  {
    hide Before;
    assert s == s[..n] + s[n..];
  }

  /** A delete request and how it was answered. */
  datatype Call = Call(key: string, ok: bool)

  function Failures(calls: seq<Call>): seq<string> {
    if calls == [] then [] else
    var last := calls[|calls| - 1];
    Failures(calls[..|calls| - 1]) + (if last.ok then [] else [last.key])
  }

  /** The failures reported are the keys of the deletes that failed. */
  lemma {:induction false} FailuresAreReported(calls: seq<Call>, key: string)
    ensures key in Failures(calls) <==> Call(key, false) in calls
  {
    if calls != [] {
      FailuresAreReported(calls[..|calls| - 1], key);
      assert calls == calls[..|calls| - 1] + [calls[|calls| - 1]];
    }
  }

  /** One request per object, in that order. */
  ghost predicate CallsFor(calls: seq<Call>, objs: seq<Object>) {
    |calls| == |objs| && forall i :: 0 <= i < |objs| ==> calls[i].key == objs[i].key
  }

  /** Acknowledged deletes are gone, and nothing else disappeared but keys asked to. */
  ghost predicate Effects(before: set<string>, after: set<string>, calls: seq<Call>) {
    && after <= before
    && (forall x :: x in before && x !in after ==> exists i :: 0 <= i < |calls| && calls[i].key == x)
    && (forall i :: 0 <= i < |calls| && calls[i].ok ==> calls[i].key !in after)
  }

  lemma OneMoreEffect(before: set<string>, mid: set<string>, after: set<string>, calls: seq<Call>, key: string,
      ok: bool)
    requires Effects(before, mid, calls)
    requires after == mid - {key} || (!ok && after == mid)
    ensures Effects(before, after, calls + [Call(key, ok)])
  {
    var more := calls + [Call(key, ok)];
    forall x | x in before && x !in after ensures exists i :: 0 <= i < |more| && more[i].key == x {
      if x !in mid {
        var i :| 0 <= i < |calls| && calls[i].key == x;
        assert more[i].key == x;
      } else {
        assert more[|calls|].key == x;
      }
    }
  }

  lemma OneMoreCall(calls: seq<Call>, objs: seq<Object>, o: Object, ok: bool)
    requires CallsFor(calls, objs)
    ensures CallsFor(calls + [Call(o.key, ok)], objs + [o])
    ensures Failures(calls + [Call(o.key, ok)]) == Failures(calls) + (if ok then [] else [o.key])
  {
    assert (calls + [Call(o.key, ok)])[..|calls|] == calls;
  }

  class Bucket {
    var keys: set<string>
    ghost var calls: seq<Call>

    /** A delete that fails may or may not have removed the object. */
    method DeleteObject(key: string) returns (ok: bool)
      modifies this
      ensures calls == old(calls) + [Call(key, ok)]
      ensures ok ==> keys == old(keys) - {key}
      ensures !ok ==> keys == old(keys) || keys == old(keys) - {key}
    {
      ok := *;
      var effect: bool := *;
      if ok || effect {
        keys := keys - {key};
      }
      calls := calls + [Call(key, ok)];
    }

    /** The deletes, each attempted whatever happened to the ones before. */
    method DeleteFirst(backups: seq<Object>, n: nat) returns (failed: seq<string>)
      requires n <= |backups|
      modifies this
      ensures old(calls) <= calls && CallsFor(calls[|old(calls)|..], backups[..n])
      ensures failed == Failures(calls[|old(calls)|..])
      ensures forall key :: key in failed <==> Call(key, false) in calls[|old(calls)|..]
      ensures Effects(old(keys), keys, calls[|old(calls)|..])
    {
      failed := [];
      for i := 0 to n
        invariant old(calls) <= calls && CallsFor(calls[|old(calls)|..], backups[..i])
        invariant failed == Failures(calls[|old(calls)|..])
        invariant Effects(old(keys), keys, calls[|old(calls)|..])
      {
        ghost var made, before := calls[|old(calls)|..], keys;
        var ok := DeleteObject(backups[i].key);
        OneMoreCall(made, backups[..i], backups[i], ok);
        OneMoreEffect(old(keys), before, keys, made, backups[i].key, ok);
        hide Failures, CallsFor, Effects;
        assert calls[|old(calls)|..] == made + [Call(backups[i].key, ok)];
        assert backups[..i + 1] == backups[..i] + [backups[i]];
        if !ok {
          failed := failed + [backups[i].key];
        }
      }
      forall key ensures key in failed <==> Call(key, false) in calls[|old(calls)|..] {
        FailuresAreReported(calls[|old(calls)|..], key);
      }
    }

    /** The paginated listing, filtered to this backup's own objects. */
    method ListOwn(prefix: string, pages: seq<Option<seq<Object>>>) returns (r: Option<seq<Object>>)
      ensures None in pages ==> r == None
      ensures None !in pages ==> r == Some(Own(prefix, Listed(pages)))
      ensures None !in pages ==> forall o :: o in r.value <==>
        IsBackupObject(prefix, o.key) && exists i :: 0 <= i < |pages| && o in pages[i].value
    {
      hide IsBackupObject;
      var backups: seq<Object> := [];
      for i := 0 to |pages|
        invariant None !in pages[..i] && backups == Own(prefix, Listed(pages[..i]))
      {
        assert pages[..i + 1][..i] == pages[..i];
        if pages[i].None? {
          return None;
        }
        OwnConcat(prefix, Listed(pages[..i]), pages[i].value);
        backups := backups + Own(prefix, pages[i].value);
      }
      assert pages[..|pages|] == pages;
      forall o ensures o in backups <==>
        IsBackupObject(prefix, o.key) && exists i :: 0 <= i < |pages| && o in pages[i].value
      {
        OwnIsExactly(prefix, Listed(pages), o);
        ListedIsExactly(pages, o);
      }
      return Some(backups);
    }

    /** Deletes exactly the oldest of this backup's own objects beyond the retention count, each
        attempted once whatever happens to the others, and reports exactly the deletes that
        failed. A failed page, a refused prefix or no retention deletes nothing. */
    method CleanupOldBackups(b: Backup, retention: int, pages: seq<Option<seq<Object>>>)
      returns (errors: Option<seq<string>>, attempted: seq<Object>)
      modifies this
      ensures retention <= 0 ==> errors == Some([]) && attempted == []
      ensures retention > 0 && (!Accepted(b) || None in pages) ==> errors == None && attempted == []
      ensures retention > 0 && Accepted(b) && None !in pages ==>
        errors.Some? && OldestBeyond(Own(ObjectPrefix(b).value, Listed(pages)), retention, attempted)
      ensures retention > 0 && Accepted(b) && None !in pages ==>
        exists kept :: KeepsTheNewest(Own(ObjectPrefix(b).value, Listed(pages)), retention, attempted, kept)
      ensures forall i :: 0 <= i < |attempted| ==>
        Accepted(b) && IsBackupObject(ObjectPrefix(b).value, attempted[i].key)
      ensures old(calls) <= calls && CallsFor(calls[|old(calls)|..], attempted)
      ensures Effects(old(keys), keys, calls[|old(calls)|..])
      ensures errors.Some? ==> errors.value == Failures(calls[|old(calls)|..])
      ensures errors.Some? ==> forall key :: key in errors.value <==> Call(key, false) in calls[|old(calls)|..]
    {
      hide ObjectPrefix, IsBackupObject, OldestBeyond, Sort, KeepsTheNewest;
      attempted := [];
      if retention <= 0 {
        return Some([]), attempted;
      }
      if !Accepted(b) {
        return None, attempted;
      }
      var prefix := ObjectPrefixOf(b);
      var own := ListOwn(prefix, pages);
      if own.None? {
        return None, attempted;
      }
      ghost var kept := SortedPrefixIsOldest(own.value, retention);
      OwnIsOwn(prefix, Listed(pages));
      SortKeeps(own.value);
      var backups := Sort(own.value, Before);
      var n := if |backups| > retention then |backups| - retention else 0;
      attempted := backups[..n];
      var failed := DeleteFirst(backups, n);
      assert forall i :: 0 <= i < n ==> attempted[i] == backups[i];
      return Some(failed), attempted;
    }
  }

  function ObjectPrefixOf(b: Backup): string
    requires Accepted(b)
  {
    ObjectPrefix(b).value
  }

  lemma SortKeeps(own: seq<Object>)
    ensures forall i :: 0 <= i < |Sort(own, Before)| ==> Sort(own, Before)[i] in own
  {
    BeforeIsTotalOrder();
    SortSorts(own, Before);
    var s := Sort(own, Before);
    forall i | 0 <= i < |s| ensures s[i] in own {
      assert s[i] in multiset(s);
    }
  }
}
