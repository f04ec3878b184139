/**
  `ObjectStorage`, `Weak` and `StorageOption.store`: how a container holds a
  handler, strongly or weakly.

  Deallocation is not modelled as memory management: a `live` set of ids,
  supplied by the caller, says which objects still exist. A `Weak` wrapper
  remembers the object it was created with (its field is written only by its
  initialiser) and reads `nil` once that object is no longer live.
*/
module Storage {
  import opened Common

  datatype ObjectStorage =
    | Strong(object: Id)
    | Weak(wrapped: Id)

  /** The object the storage was built with. */
  function Stored(s: ObjectStorage): Id {
    match s
    case Strong(o) => o
    case Weak(o) => o
  }

  /** `ObjectStorage.object`, read while the objects in `live` exist. */
  function Object(s: ObjectStorage, live: set<Id>): Option<Id> {
    match s
    case Strong(o) => Some(o)
    case Weak(o) => if o in live then Some(o) else None
  }

  /** `.strong` storage always yields the stored object. */
  lemma StrongAlwaysYields(o: Id, live: set<Id>)
    ensures Object(Strong(o), live) == Some(o)
  {
  }

  /** `.weak` storage yields its object while it is live and `nil` once it is freed. */
  lemma WeakYieldsWhileLive(o: Id, live: set<Id>)
    ensures Object(Weak(o), live) == Some(o) <==> o in live
    ensures Object(Weak(o), live) == None <==> o !in live
  {
  }

  /** `object` is the stored object or `nil`, never a different object. */
  lemma ObjectIsStoredOrNil(s: ObjectStorage, live: set<Id>)
    ensures Object(s, live) == None || Object(s, live) == Some(Stored(s))
  {
  }

  /** Freeing objects can only turn a read into `nil`; it never changes which object is read. */
  lemma ObjectUnderRelease(s: ObjectStorage, live: set<Id>, freed: set<Id>)
    ensures Object(s, live - freed) == Object(s, live) || Object(s, live - freed) == None
    ensures Stored(s) !in freed ==> Object(s, live - freed) == Object(s, live)
  {
  }

  datatype StorageOption = Strongly | Weakly

  /** `StorageOption.store(_:)` */
  function Store(option: StorageOption, o: Id): (s: ObjectStorage)
    ensures Stored(s) == o
    ensures s.Strong? <==> option == Strongly
  {
    match option
    case Strongly => Strong(o)
    case Weakly => Weak(o)
  }

  /** Right after `store(o)` (while `o` exists) the storage reads `o`. */
  lemma StoreThenRead(option: StorageOption, o: Id, live: set<Id>)
    requires o in live
    ensures Object(Store(option, o), live) == Some(o)
  {
  }

  /** Only storage built with `.weakly` can later read `nil`, and only once its object is freed. */
  lemma OnlyWeakReadsNil(option: StorageOption, o: Id, live: set<Id>)
    ensures Object(Store(option, o), live) == None <==> option == Weakly && o !in live
  {
  }
}
