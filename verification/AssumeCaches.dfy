/** Caches of API objects with assumptions on top
    (pkg/controller/volume/scheduling/scheduler_assume_cache.go). */
module AssumeCaches {
  import opened Api

  /** An API object: the key under which it is stored and its resource version, which is
      absent when the text of the version is no number. */
  datatype Object<T> = Object(name: string, version: Option<int>, spec: T)

  /** The latest object, which may be assumed, and the object of the informer. */
  datatype ObjInfo<T> = ObjInfo(latestObj: Object<T>, apiObj: Object<T>)

  type Store<T> = map<string, ObjInfo<T>>

  // ---- the operations on values ----

  /** Versions compare only when both are numbers. */
  predicate Newer<T>(a: Object<T>, b: Object<T>) {
    a.version.Some? && b.version.Some? && a.version.value > b.version.value
  }

  /** add: an object that is not newer than the latest one, assumed or not, is skipped. */
  function Added<T>(s: Store<T>, obj: Object<T>): Store<T> {
    if obj.name in s && !Newer(obj, s[obj.name].latestObj) then s else s[obj.name := ObjInfo(obj, obj)]
  }

  function Deleted<T>(s: Store<T>, name: string): Store<T> { s - {name} }

  predicate CanAssume<T>(s: Store<T>, obj: Object<T>) {
    && obj.name in s && obj.version.Some? && s[obj.name].latestObj.version.Some?
    && obj.version.value >= s[obj.name].latestObj.version.value
  }

  function Assumed<T>(s: Store<T>, obj: Object<T>): Store<T> {
    if CanAssume(s, obj) then s[obj.name := s[obj.name].(latestObj := obj)] else s
  }

  function Restored<T>(s: Store<T>, name: string): Store<T> {
    if name in s then s[name := s[name].(latestObj := s[name].apiObj)] else s
  }

  // ---- the object ----

  class AssumeCache<T> {
    var store: Store<T>

    constructor ()
      ensures store == map[]
    {
      store := map[];
    }

    method Add(obj: Object<T>)
      modifies this
      ensures store == Added(old(store), obj)
      ensures store == if Takes(old(store), obj) then old(store)[obj.name := ObjInfo(obj, obj)] else old(store)
    {
      if obj.name in store {
        var stored := store[obj.name].latestObj;
        if obj.version.None? || stored.version.None? {
          return;
        }
        if obj.version.value <= stored.version.value {
          return;
        }
      }
      store := store[obj.name := ObjInfo(obj, obj)];
    }

    method Delete(name: string)
      modifies this
      ensures store == Deleted(old(store), name)
    {
      store := store - {name};
    }

    method Assume(obj: Object<T>) returns (ok: bool)
      modifies this
      ensures ok == CanAssume(old(store), obj) && store == Assumed(old(store), obj)
    {
      if obj.name !in store || obj.version.None? || store[obj.name].latestObj.version.None? {
        return false;
      }
      if obj.version.value < store[obj.name].latestObj.version.value {
        return false;
      }
      store := store[obj.name := store[obj.name].(latestObj := obj)];
      ok := true;
    }

    method Restore(name: string)
      modifies this
      ensures store == Restored(old(store), name)
    {
      if name in store {
        store := store[name := store[name].(latestObj := store[name].apiObj)];
      }
    }
  }

  // ---- what every run keeps ----

  /** The latest object is the one of the informer or an assumed one that is not older. */
  ghost predicate Consistent<T>(i: ObjInfo<T>) {
    i.latestObj == i.apiObj ||
    (i.latestObj.version.Some? && i.apiObj.version.Some? && i.latestObj.version.value >= i.apiObj.version.value)
  }

  ghost predicate StoreOk<T>(s: Store<T>) {
    forall n :: n in s ==> Consistent(s[n]) && s[n].latestObj.name == n && s[n].apiObj.name == n
  }

  datatype CacheOp<T> = Add(obj: Object<T>) | Delete(name: string) | Assume(obj: Object<T>) | Restore(name: string)

  function Applied<T>(s: Store<T>, op: CacheOp<T>): Store<T> {
    match op
    case Add(obj) => Added(s, obj)
    case Delete(name) => Deleted(s, name)
    case Assume(obj) => Assumed(s, obj)
    case Restore(name) => Restored(s, name)
  }

  function StoreAfter<T>(ops: seq<CacheOp<T>>, n: nat): Store<T>
    requires n <= |ops|
  {
    if n == 0 then map[] else Applied(StoreAfter(ops, n - 1), ops[n - 1])
  }

  lemma AppliedOk<T>(s: Store<T>, op: CacheOp<T>)
    requires StoreOk(s)
    ensures StoreOk(Applied(s, op))
  {
  }

  /** Over every run version(latest) >= version(api). */
  lemma {:induction false} RunStoreOk<T>(ops: seq<CacheOp<T>>, n: nat)
    requires n <= |ops|
    ensures StoreOk(StoreAfter(ops, n))
  {
    if n > 0 {
      RunStoreOk(ops, n - 1);
      AppliedOk(StoreAfter(ops, n - 1), ops[n - 1]);
    }
  }

  function VersionOf<T>(o: Object<T>): int { match o.version case Some(v) => v case None => -1 }

  /** Resync and late updates of the informer never push an assumption back: while an entry
      stays and is not restored its latest version does not sink. */
  lemma LatestNeverSinks<T>(s: Store<T>, op: CacheOp<T>, n: string)
    requires n in s && n in Applied(s, op) && op != Restore(n) && s[n].latestObj.version.Some?
    ensures Applied(s, op)[n].latestObj.version.Some?
    ensures VersionOf(Applied(s, op)[n].latestObj) >= VersionOf(s[n].latestObj)
  {
  }

  // ---- which objects stand ----

  /** A name without an entry takes any object; else both versions must parse, and that of the
      object must be the larger one. */
  predicate Takes<T>(s: Store<T>, obj: Object<T>) {
    obj.name in s ==>
      && obj.version.Some? && s[obj.name].latestObj.version.Some?
      && s[obj.name].latestObj.version.value < obj.version.value
  }

  /** An addition that takes effect becomes both the latest object and the object of the
      informer; any other one changes nothing. */
  lemma AddStores<T>(s: Store<T>, obj: Object<T>)
    ensures var t := Added(s, obj);
            && (Takes(s, obj) ==> obj.name in t && t[obj.name].latestObj == obj && t[obj.name].apiObj == obj)
            && (!Takes(s, obj) ==> t == s)
            && forall m :: m != obj.name ==> (m in t <==> m in s) && (m in s ==> t[m] == s[m])
  {
  }

  /** What the other operations leave under each name. */
  lemma OthersLeave<T>(s: Store<T>, obj: Object<T>, name: string, m: string)
    ensures m in Deleted(s, name) <==> m in s && m != name
    ensures m in s && m != name ==> Deleted(s, name)[m] == s[m]
    ensures Assumed(s, obj).Keys == s.Keys && Restored(s, name).Keys == s.Keys
    ensures m in s ==>
      && Assumed(s, obj)[m].apiObj == s[m].apiObj && Restored(s, name)[m].apiObj == s[m].apiObj
      && Assumed(s, obj)[m].latestObj == (if m == obj.name && CanAssume(s, obj) then obj else s[m].latestObj)
      && Restored(s, name)[m].latestObj == if m == name then s[m].apiObj else s[m].latestObj
  {
  }

  /** Operation j is an addition under the name that takes effect. */
  ghost predicate AddsAt<T>(ops: seq<CacheOp<T>>, j: nat, name: string) {
    j < |ops| && ops[j].Add? && ops[j].obj.name == name && Takes(StoreAfter(ops, j), ops[j].obj)
  }

  /** Operation j sets the latest object under the name. */
  ghost predicate SetsAt<T>(ops: seq<CacheOp<T>>, j: nat, name: string) {
    || AddsAt(ops, j, name)
    || (j < |ops| && ops[j].Assume? && ops[j].obj.name == name && CanAssume(StoreAfter(ops, j), ops[j].obj))
    || (j < |ops| && ops[j] == Restore(name) && name in StoreAfter(ops, j))
  }

  /** Operation j adds the name, and nothing deletes it up to operation n. */
  ghost predicate AddedSince<T>(ops: seq<CacheOp<T>>, j: nat, n: nat, name: string)
    requires j < n <= |ops|
  {
    ops[j].Add? && ops[j].obj.name == name && forall k :: j < k < n ==> ops[k] != Delete(name)
  }

  /** A name has an entry if and only if it was added and not deleted since. */
  lemma {:induction false} StoredIff<T(!new)>(ops: seq<CacheOp<T>>, n: nat, name: string)
    requires n <= |ops|
    ensures name in StoreAfter(ops, n) <==> exists j :: 0 <= j < n && AddedSince(ops, j, n, name)
  {
    if n > 0 {
      StoredIff(ops, n - 1, name);
      if ops[n - 1].Add? && ops[n - 1].obj.name == name {
        assert AddedSince(ops, n - 1, n, name);
      }
      if name in StoreAfter(ops, n - 1) && ops[n - 1] != Delete(name) {
        var j :| 0 <= j < n - 1 && AddedSince(ops, j, n - 1, name);
        assert AddedSince(ops, j, n, name);
      }
      if j :| 0 <= j < n - 1 && AddedSince(ops, j, n, name) {
        assert AddedSince(ops, j, n - 1, name);
      }
    }
  }

  /** In every run the object of the informer is that of the last addition that was newer than
      the latest object of its time, and the name was not deleted since. */
  lemma {:induction false} ApiObjectIsLast<T(!new)>(ops: seq<CacheOp<T>>, n: nat, name: string) returns (j: nat)
    requires n <= |ops| && name in StoreAfter(ops, n)
    ensures j < n && AddsAt(ops, j, name) && StoreAfter(ops, n)[name].apiObj == ops[j].obj
    ensures forall k :: j < k < n ==> !AddsAt(ops, k, name) && ops[k] != Delete(name)
  {
    var s := StoreAfter(ops, n - 1);
    if AddsAt(ops, n - 1, name) {
      j := n - 1;
    } else {
      j := ApiObjectIsLast(ops, n - 1, name);
    }
  }

  /** The latest object is the one that the last addition in effect or the last assumption set,
      or that of the informer if a restore came after them. */
  lemma {:induction false} LatestIsLast<T(!new)>(ops: seq<CacheOp<T>>, n: nat, name: string) returns (j: nat)
    requires n <= |ops| && name in StoreAfter(ops, n)
    ensures j < n && SetsAt(ops, j, name)
    ensures StoreAfter(ops, n)[name].latestObj ==
      if ops[j].Restore? then StoreAfter(ops, j)[name].apiObj else ops[j].obj
    ensures forall k :: j < k < n ==> !SetsAt(ops, k, name) && ops[k] != Delete(name)
  {
    if SetsAt(ops, n - 1, name) {
      j := n - 1;
    } else {
      j := LatestIsLast(ops, n - 1, name);
    }
  }

  lemma AssumedAt<T>(s: Store<T>, obj: Object<T>, n: string)
    requires CanAssume(s, obj) && n in s
    ensures Assumed(s, obj).Keys == s.Keys
    ensures Assumed(s, obj)[n] == if n == obj.name then s[n].(latestObj := obj) else s[n]
  {
  }

  // ---- undoing ----

  /** No assumption stands on the object. */
  ghost predicate Settled<T>(s: Store<T>, name: string) { name in s ==> s[name].latestObj == s[name].apiObj }

  /** Restoring takes an assumption back completely if and only if none stood before. */
  lemma RestoreUndoesIff<T>(s: Store<T>, obj: Object<T>)
    requires CanAssume(s, obj)
    ensures Restored(Assumed(s, obj), obj.name) == s <==> Settled(s, obj.name)
  {
    var t := Restored(Assumed(s, obj), obj.name);
    assert t[obj.name] == ObjInfo(s[obj.name].apiObj, s[obj.name].apiObj);
  }

  /** Restoring a list of names, in order. */
  function RestoredAll<T>(s: Store<T>, names: seq<string>, n: nat): Store<T>
    requires n <= |names|
  {
    if n == 0 then s else Restored(RestoredAll(s, names, n - 1), names[n - 1])
  }

  /** Exactly the named objects go back to the objects of the informer. */
  lemma {:induction false} RestoredAllAt<T>(s: Store<T>, names: seq<string>, n: nat)
    requires n <= |names|
    ensures RestoredAll(s, names, n).Keys == s.Keys
    ensures forall m :: m in s ==>
      RestoredAll(s, names, n)[m] == if m in names[..n] then s[m].(latestObj := s[m].apiObj) else s[m]
  {
    if n > 0 {
      RestoredAllAt(s, names, n - 1);
      assert names[..n] == names[..n - 1] + [names[n - 1]];
    }
  }

  lemma {:induction false} RestoredAllPrefix<T>(s: Store<T>, a: seq<string>, b: seq<string>, n: nat)
    requires n <= |a| && n <= |b| && forall i :: 0 <= i < n ==> a[i] == b[i]
    ensures RestoredAll(s, a, n) == RestoredAll(s, b, n)
  {
    if n > 0 {
      RestoredAllPrefix(s, a, b, n - 1);
    }
  }
}
