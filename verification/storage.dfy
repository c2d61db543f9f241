/** storage/storage.go and storage/memory.go: a short-lived in-memory file
    store keyed by UUID, with optional expiry and a garbage collector.

    The clock is a parameter: `now` is the instant time.Now() returns. The
    UUID Save draws is a parameter too, and the mutex carries no behaviour. */
module Storage {
  import opened Wrappers

  /** An instant, in nanoseconds on a common clock. */
  type Time = int

  /** A uuid.UUID. */
  type Id = nat

  /** memoryFile: its three getters are the fields' accessors. */
  datatype File = File(content: seq<bv8>, mime: string, expiredAt: Option<Time>)

  datatype Store = Store(files: map<Id, File>)

  /** NewMemoryStorage. */
  const Empty := Store(map[])

  /** IsExpired: the expiry lies strictly before now; no expiry never expires. */
  predicate IsExpired(f: File, now: Time): (b: bool)
    ensures f.expiredAt.None? ==> !b
    ensures f.expiredAt == Some(now) ==> !b
  {
    f.expiredAt.Some? && f.expiredAt.value < now
  }

  /** A file expired at one instant is expired at every later one, and a file
      expiring exactly now is not yet expired. */
  lemma ExpiryIsPermanent(f: File, t1: Time, t2: Time)
    requires t1 <= t2
    ensures IsExpired(f, t1) ==> IsExpired(f, t2)
    ensures f.expiredAt == Some(t1) ==> !IsExpired(f, t1)
    ensures f.expiredAt.None? ==> !IsExpired(f, t2)
  {
  }

  /** Save: stores the file under the drawn id and returns that id. */
  function Save(s: Store, f: File, id: Id): (r: (Store, Id))
    ensures r.1 == id
    ensures r.0.files.Keys == s.files.Keys + {id}
    ensures Get(r.0, id) == Some(f)
    ensures forall other :: other != id ==> Get(r.0, other) == Get(s, other)
  {
    (Store(s.files[id := f]), id)
  }

  /** Get: the file under `id`, or None for the Go pair (nil, false). */
  function Get(s: Store, id: Id): (r: Option<File>)
    ensures r.Some? <==> id in s.files
    ensures r.Some? ==> s.files[id] == r.value
  {
    if id in s.files then Some(s.files[id]) else None
  }

  /** GC: drops every file that has an expiry lying before now, and nothing else. */
  function GC(s: Store, now: Time): (r: Store)
    ensures forall id :: id in r.files <==> id in s.files && !IsExpired(s.files[id], now)
    ensures forall id :: id in r.files ==> r.files[id] == s.files[id]
  {
    Store(map id | id in s.files && !(s.files[id].expiredAt.Some? && IsExpired(s.files[id], now)) :: s.files[id])
  }

  /** A file saved with a fresh id is there to get back until a GC finds it expired. */
  lemma SaveThenGet(s: Store, f: File, id: Id, now: Time)
    requires id !in s.files
    ensures Get(Save(s, f, id).0, id) == Some(f)
    ensures !IsExpired(f, now) ==> Get(GC(Save(s, f, id).0, now), id) == Some(f)
    ensures IsExpired(f, now) ==> Get(GC(Save(s, f, id).0, now), id) == None
  {
  }

  /** A file without expiry survives every GC. */
  lemma GCKeepsPermanent(s: Store, id: Id, now: Time)
    requires id in s.files && s.files[id].expiredAt.None?
    ensures Get(GC(s, now), id) == Some(s.files[id])
  {
  }

  /** A second GC at the same or a later instant acts as that GC alone; in
      particular GC is idempotent. */
  lemma GCCompose(s: Store, t1: Time, t2: Time)
    requires t1 <= t2
    ensures GC(GC(s, t1), t2) == GC(s, t2)
  {
    var a := GC(GC(s, t1), t2);
    var b := GC(s, t2);
    forall id | id in s.files
      ensures IsExpired(s.files[id], t1) ==> IsExpired(s.files[id], t2)
    {
      ExpiryIsPermanent(s.files[id], t1, t2);
    }
    assert a.files.Keys == b.files.Keys;
  }

  lemma GCIdempotent(s: Store, now: Time)
    ensures GC(GC(s, now), now) == GC(s, now)
  {
    GCCompose(s, now, now);
  }
}
