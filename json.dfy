module Wrappers {
  datatype Option<+T> = None | Some(value: T)
}

/** JSON values as the scripts see them after `json.load`: objects keep their
    keys in insertion order, as Python dicts do. */
module Json {
  import opened Wrappers

  datatype Json =
    | Null
    | Bool(b: bool)
    | Num(n: int)
    | Str(s: string)
    | Arr(items: seq<Json>)
    | Obj(entries: seq<Entry>)

  datatype Entry = Entry(key: string, val: Json)

  /** What a script run leaves in its output file: a new document, nothing
      (the script returned early), or nothing because an uncaught exception
      ended the run before the final write. */
  datatype Outcome = Written(doc: Json) | NotWritten | Aborted

  function Keys(es: seq<Entry>): (ks: seq<string>)
    ensures |ks| == |es| && forall i :: 0 <= i < |es| ==> ks[i] == es[i].key
  {
    if es == [] then [] else [es[0].key] + Keys(es[1..])
  }

  predicate DistinctKeys(es: seq<Entry>)
  {
    forall i, j :: 0 <= i < j < |es| ==> es[i].key != es[j].key
  }

  /** Every object, at every depth, has pairwise distinct keys (true of what `json.load` returns). */
  predicate WellFormed(j: Json)
  {
    match j
    case Arr(items) => forall i :: 0 <= i < |items| ==> WellFormed(items[i])
    case Obj(es) => DistinctKeys(es) && forall i :: 0 <= i < |es| ==> WellFormed(es[i].val)
    case _ => true
  }

  /** Python truthiness: None, False, 0, "", [] and {} are falsy. */
  predicate Truthy(j: Json)
  {
    match j
    case Null => false
    case Bool(b) => b
    case Num(n) => n != 0
    case Str(s) => s != ""
    case Arr(items) => items != []
    case Obj(es) => es != []
  }

  /** `d.get(k)`: the value stored under `k`, if any */
  function Get(es: seq<Entry>, k: string): (r: Option<Json>)
    ensures r.Some? <==> k in Keys(es)
  {
    if es == [] then None
    else if es[0].key == k then Some(es[0].val)
    else Get(es[1..], k)
  }

  /** `d.get(k, default)` */
  function GetOr(es: seq<Entry>, k: string, default: Json): Json
  {
    match Get(es, k)
    case Some(v) => v
    case None => default
  }

  /** With distinct keys, the entry at position `i` is the one `Get` finds. */
  lemma {:induction false} GetAt(es: seq<Entry>, i: nat)
    requires DistinctKeys(es) && i < |es|
    ensures Get(es, es[i].key) == Some(es[i].val)
  {
    if i > 0 {
      assert DistinctKeys(es[1..]);
      GetAt(es[1..], i - 1);
    }
  }

  /** Peeling the first entry off a well-formed object: the rest is well
      formed and does not repeat the first key. */
  lemma WellFormedTail(es: seq<Entry>)
    requires WellFormed(Obj(es)) && es != []
    ensures WellFormed(Obj(es[1..])) && WellFormed(es[0].val) && es[0].key !in Keys(es[1..])
  {
    var ks := Keys(es[1..]);
    forall j | 0 <= j < |ks| ensures ks[j] != es[0].key {
      assert ks[j] == es[j + 1].key;
    }
  }

  /** `d[k] = v`: an existing key keeps its position and gets the new value,
      a new key is appended at the end; no other key is affected. */
  function Put(es: seq<Entry>, k: string, v: Json): (r: seq<Entry>)
    ensures Get(r, k) == Some(v)
    ensures forall k' :: k' != k ==> Get(r, k') == Get(es, k')
  {
    if es == [] then [Entry(k, v)]
    else if es[0].key == k then [Entry(k, v)] + es[1..]
    else
      var r := [es[0]] + Put(es[1..], k, v);
      assert r[1..] == Put(es[1..], k, v);
      r
  }

  /** Assigning a key the object does not have appends one entry. */
  lemma {:induction false} PutAbsent(es: seq<Entry>, k: string, v: Json)
    requires k !in Keys(es)
    ensures Put(es, k, v) == es + [Entry(k, v)]
  {
    if es != [] {
      assert Keys(es) == [es[0].key] + Keys(es[1..]);
      PutAbsent(es[1..], k, v);
      assert Put(es, k, v) == [es[0]] + Put(es[1..], k, v);
      assert [es[0]] + (es[1..] + [Entry(k, v)]) == es + [Entry(k, v)];
    }
  }

  /** Keys keep their order; a new key goes last. */
  lemma PutKeys(es: seq<Entry>, k: string, v: Json)
    ensures Keys(Put(es, k, v)) == if k in Keys(es) then Keys(es) else Keys(es) + [k]
  {
    if k in Keys(es) {
      PutKeysPresent(es, k, v);
    } else {
      PutAbsent(es, k, v);
      KeysAppend(es, Entry(k, v));
    }
  }

  /** Appending an entry appends its key. */
  lemma KeysAppend(es: seq<Entry>, e: Entry)
    ensures Keys(es + [e]) == Keys(es) + [e.key]
  {
    var r := es + [e];
    assert forall i :: 0 <= i < |r| ==> Keys(r)[i] == (Keys(es) + [e.key])[i];
  }

  /** Assigning an existing key changes no key. */
  lemma {:induction false} PutKeysPresent(es: seq<Entry>, k: string, v: Json)
    requires k in Keys(es)
    ensures Keys(Put(es, k, v)) == Keys(es)
  {
    var r := Put(es, k, v);
    if es[0].key == k {
      assert forall i :: 0 <= i < |r| ==> Keys(r)[i] == Keys(es)[i];
    } else {
      assert Keys(es) == [es[0].key] + Keys(es[1..]);
      PutKeysPresent(es[1..], k, v);
      assert r[1..] == Put(es[1..], k, v);
      assert Keys(r) == [es[0].key] + Keys(r[1..]);
    }
  }

  lemma PutDistinct(es: seq<Entry>, k: string, v: Json)
    requires DistinctKeys(es)
    ensures DistinctKeys(Put(es, k, v))
  {
    var r := Put(es, k, v);
    PutKeys(es, k, v);
    forall i, j | 0 <= i < j < |r| ensures r[i].key != r[j].key {
      assert Keys(r)[i] == r[i].key && Keys(r)[j] == r[j].key;
      if k !in Keys(es) && j == |es| {
        assert Keys(es)[i] == Keys(r)[i];
      } else {
        assert Keys(es)[i] == Keys(r)[i] && Keys(es)[j] == Keys(r)[j];
      }
    }
  }

  /** Assigning the same key twice keeps only the second value. */
  lemma {:induction false} PutPut(es: seq<Entry>, k: string, v1: Json, v2: Json)
    ensures Put(Put(es, k, v1), k, v2) == Put(es, k, v2)
  {
    if es != [] && es[0].key != k {
      PutPut(es[1..], k, v1, v2);
    }
  }

  /** Rebuilding an object value by value, in order, with a step that may
      raise (`None`): the keys stay as they are, and one failing step fails
      the whole rebuild. */
  function MapValues(es: seq<Entry>, f: (string, Json) -> Option<Json>): (r: Option<seq<Entry>>)
    ensures r.Some? <==> forall i :: 0 <= i < |es| ==> f(es[i].key, es[i].val).Some?
    ensures r.Some? ==>
      |r.value| == |es| &&
      forall i :: 0 <= i < |es| ==> r.value[i] == Entry(es[i].key, f(es[i].key, es[i].val).value)
  {
    if es == [] then Some([])
    else
      match f(es[0].key, es[0].val)
      case None => None
      case Some(v) =>
        match MapValues(es[1..], f)
        case None => None
        case Some(rest) => Some([Entry(es[0].key, v)] + rest)
  }

  /** Rebuilding value by value keeps the keys, in order. */
  lemma MapValuesKeys(es: seq<Entry>, f: (string, Json) -> Option<Json>)
    requires MapValues(es, f).Some?
    ensures Keys(MapValues(es, f).value) == Keys(es)
  {
    var r := MapValues(es, f).value;
    assert forall i :: 0 <= i < |es| ==> Keys(r)[i] == r[i].key == es[i].key == Keys(es)[i];
  }

  /** Following `path` through nested objects: `d[p0][p1]...` */
  function Lookup(j: Json, path: seq<string>): Option<Json>
    decreases |path|
  {
    if path == [] then Some(j)
    else if !j.Obj? then None
    else
      match Get(j.entries, path[0])
      case None => None
      case Some(c) => Lookup(c, path[1..])
  }

  /** Following `p + q` is following `p`, then `q` from there. */
  lemma {:induction false} LookupAppend(j: Json, p: seq<string>, q: seq<string>)
    ensures Lookup(j, p + q) == if Lookup(j, p).Some? then Lookup(Lookup(j, p).value, q) else None
    decreases |p|
  {
    if p == [] {
      assert p + q == q;
    } else if j.Obj? && Get(j.entries, p[0]).Some? {
      assert (p + q)[0] == p[0] && (p + q)[1..] == p[1..] + q;
      LookupAppend(Get(j.entries, p[0]).value, p[1..], q);
    } else {
      assert (p + q)[0] == p[0];
    }
  }

  /** Two paths are apart when they differ at a position both have; then
      neither is a prefix of the other. */
  predicate Apart(p: seq<string>, q: seq<string>)
    decreases |p|
  {
    |p| > 0 && |q| > 0 && (p[0] != q[0] || Apart(p[1..], q[1..]))
  }

  lemma {:induction false} ApartExtend(p: seq<string>, q: seq<string>, r: seq<string>)
    requires Apart(p, q)
    ensures Apart(p, q + r)
    decreases |p|
  {
    if p[0] == q[0] {
      assert (q + r)[1..] == q[1..] + r;
      ApartExtend(p[1..], q[1..], r);
    }
  }

  /** Paths sharing a prefix and then differing are apart. */
  lemma {:induction false} ApartAfter(prefix: seq<string>, a: seq<string>, b: seq<string>)
    requires |a| > 0 && |b| > 0 && a[0] != b[0]
    ensures Apart(prefix + a, prefix + b)
    decreases |prefix|
  {
    if prefix != [] {
      assert (prefix + a)[1..] == prefix[1..] + a;
      assert (prefix + b)[1..] == prefix[1..] + b;
      ApartAfter(prefix[1..], a, b);
    }
  }

  /** Dropping the head of a concatenation drops it from the first part. */
  lemma TailAppend<T>(a: seq<T>, b: seq<T>)
    requires a != []
    ensures (a + b)[1..] == a[1..] + b
  {
  }

  /** Every node that already exists along `path` is an object. */
  predicate ObjectsAlong(t: Json, path: seq<string>)
    decreases |path|
  {
    t.Obj? &&
    (path == [] ||
     match Get(t.entries, path[0])
     case None => true
     case Some(c) => ObjectsAlong(c, path[1..]))
  }

  /** The `setdefault` descent used by several scripts:
        curr = t
        for p in path: curr = curr.setdefault(p, {})
        curr[key] = v
      Missing levels are created as empty objects. A level that exists but is
      not an object makes Python raise (no `setdefault` on a list, no item
      assignment on a string, ...), which is `None` here. */
  function SetDefaultPath(t: Json, path: seq<string>, key: string, v: Json): Option<Json>
    decreases |path|
  {
    if !t.Obj? then None
    else if path == [] then Some(Obj(Put(t.entries, key, v)))
    else
      var child := GetOr(t.entries, path[0], Obj([]));
      match SetDefaultPath(child, path[1..], key, v)
      case None => None
      case Some(c) => Some(Obj(Put(t.entries, path[0], c)))
  }

  /** The descent fails exactly when an existing node along the path is not an object. */
  lemma {:induction false} SetDefaultPathSucceeds(t: Json, path: seq<string>, key: string, v: Json)
    ensures SetDefaultPath(t, path, key, v).Some? <==> ObjectsAlong(t, path)
    decreases |path|
  {
    if t.Obj? && path != [] {
      SetDefaultPathSucceeds(GetOr(t.entries, path[0], Obj([])), path[1..], key, v);
    }
  }

  /** After the descent, `t[p0]...[pn][key]` is `v`. */
  lemma {:induction false} SetDefaultPathWrites(t: Json, path: seq<string>, key: string, v: Json)
    requires SetDefaultPath(t, path, key, v).Some?
    ensures Lookup(SetDefaultPath(t, path, key, v).value, path + [key]) == Some(v)
    decreases |path|
  {
    if path != [] {
      TailAppend(path, [key]);
      SetDefaultPathWrites(GetOr(t.entries, path[0], Obj([])), path[1..], key, v);
    }
  }

  /** Every path apart from `path + [key]` reads the same before and after:
      siblings at every level are untouched. */
  lemma {:induction false} SetDefaultPathFrame(t: Json, path: seq<string>, key: string, v: Json, p: seq<string>)
    requires SetDefaultPath(t, path, key, v).Some?
    requires Apart(p, path + [key])
    ensures Lookup(SetDefaultPath(t, path, key, v).value, p) == Lookup(t, p)
    decreases |path|
  {
    var t' := SetDefaultPath(t, path, key, v).value;
    if path != [] && p[0] == path[0] {
      var child := GetOr(t.entries, path[0], Obj([]));
      TailAppend(path, [key]);
      SetDefaultPathFrame(child, path[1..], key, v, p[1..]);
      var c := SetDefaultPath(child, path[1..], key, v).value;
      assert t' == Obj(Put(t.entries, path[0], c));
      assert Lookup(t', p) == Lookup(c, p[1..]);
      if Get(t.entries, path[0]).None? {
        assert Lookup(child, p[1..]) == None;
      }
    } else {
      var first := if path == [] then key else path[0];
      assert p[0] != first;
      assert t'.Obj? && Get(t'.entries, p[0]) == Get(t.entries, p[0]);
    }
  }

  /** The descent leaves every path apart from the written one with only
      objects (or nothing) along it, if it had only objects before. */
  lemma {:induction false} ObjectsAlongPreserved(t: Json, path: seq<string>, key: string, v: Json, q: seq<string>)
    requires SetDefaultPath(t, path, key, v).Some?
    requires ObjectsAlong(t, q) && Apart(q, path + [key])
    ensures ObjectsAlong(SetDefaultPath(t, path, key, v).value, q)
    decreases |path|
  {
    var t' := SetDefaultPath(t, path, key, v).value;
    if path != [] && q[0] == path[0] {
      var child := GetOr(t.entries, path[0], Obj([]));
      TailAppend(path, [key]);
      ObjectsAlongPreserved(child, path[1..], key, v, q[1..]);
      var c := SetDefaultPath(child, path[1..], key, v).value;
      assert t' == Obj(Put(t.entries, path[0], c));
    } else {
      var first := if path == [] then key else path[0];
      assert q[0] != first;
      assert t'.Obj? && Get(t'.entries, q[0]) == Get(t.entries, q[0]);
    }
  }

  /** The top-level keys keep their order; the first path step (or `key`)
      is appended when it was missing. */
  lemma SetDefaultPathKeys(t: Json, path: seq<string>, key: string, v: Json)
    requires SetDefaultPath(t, path, key, v).Some?
    ensures var first := if path == [] then key else path[0];
            var t' := SetDefaultPath(t, path, key, v).value;
            t'.Obj? &&
            Keys(t'.entries) == if first in Keys(t.entries) then Keys(t.entries) else Keys(t.entries) + [first]
  {
    var t' := SetDefaultPath(t, path, key, v).value;
    if path == [] {
      PutKeys(t.entries, key, v);
    } else {
      var c := SetDefaultPath(GetOr(t.entries, path[0], Obj([])), path[1..], key, v).value;
      PutKeys(t.entries, path[0], c);
    }
  }

  /** A link record `{"url": url, "desc": "Image for query: <query>"}` */
  function LinkRecord(url: Json, query: string): Json
  {
    Obj([Entry("url", url), Entry("desc", Str("Image for query: " + query))])
  }
}
