/**
 * The admin data storage, seen only through the calls the messages cache and
 * the message controller make on it. The persistence engine itself is not
 * part of this model: the store is a sequence of message records in storage
 * order plus one flag saying whether the backend can be reached; every call
 * made while it cannot fails with an I/O error and changes nothing.
 */
module Storage {
  import opened Wrappers

  /** A message record (WBMessage): one text of one locale, keyed by name. */
  datatype Message = Message(
    privkey: int,
    externalKey: string,
    name: string,
    value: string,
    lcid: string,
    isTranslated: int,
    lastModified: int)

  /** The WBIOException of a storage call. */
  datatype StorageError = IOError

  datatype SortOrder = Ascending | Descending

  /** The records whose lcid is `lcid`, in storage order. */
  function WithLcid(ms: seq<Message>, lcid: string): (r: seq<Message>)
    ensures |r| <= |ms|
    ensures forall m :: m in r <==> m in ms && m.lcid == lcid
  {
    if ms == [] then []
    else (if ms[0].lcid == lcid then [ms[0]] else []) + WithLcid(ms[1..], lcid)
  }

  /** Selecting by lcid keeps the store order: it distributes over concatenation. */
  lemma {:induction false} WithLcidAppend(a: seq<Message>, b: seq<Message>, lcid: string)
    ensures WithLcid(a + b, lcid) == WithLcid(a, lcid) + WithLcid(b, lcid)
  {
    if a == [] {
      assert a + b == b;
    } else {
      assert (a + b)[0] == a[0];
      assert (a + b)[1..] == a[1..] + b;
      WithLcidAppend(a[1..], b, lcid);
    }
  }

  /** The first record whose storage key is `key`, if any. */
  function FindByKey(ms: seq<Message>, key: int): (r: Option<Message>)
    ensures r.Some? <==> exists m :: m in ms && m.privkey == key
    ensures r.Some? ==> r.value in ms && r.value.privkey == key
  {
    if ms == [] then None
    else if ms[0].privkey == key then Some(ms[0])
    else FindByKey(ms[1..], key)
  }

  /** `ms` with every record stored under `m.privkey` replaced by `m`. */
  function ReplaceByKey(ms: seq<Message>, m: Message): (r: seq<Message>)
    ensures |r| == |ms|
    ensures forall k :: 0 <= k < |ms| ==>
              r[k] == (if ms[k].privkey == m.privkey then m else ms[k])
  {
    seq(|ms|, k requires 0 <= k < |ms| => if ms[k].privkey == m.privkey then m else ms[k])
  }

  class AdminDataStorage {
    /** The stored message records, in storage order. */
    var messages: seq<Message>
    /** Whether the backend answers; when it does not, every call fails. */
    var online: bool

    constructor (initial: seq<Message>, reachable: bool)
      ensures messages == initial && online == reachable
    {
      messages := initial;
      online := reachable;
    }

    /** `getAllRecords(WBMessage.class)`. */
    method GetAllRecords() returns (r: Result<seq<Message>, StorageError>)
      ensures r == if online then Success(messages) else Failure(IOError)
    {
      r := if online then Success(messages) else Failure(IOError);
    }

    /**
     * `getAllRecords(WBMessage.class, property, order)`. Ordering by a named
     * property is the store's business: the result is only known to hold
     * exactly the stored records.
     */
    method GetAllRecordsSorted(property: string, order: SortOrder)
      returns (r: Result<seq<Message>, StorageError>)
      ensures r.Success? <==> online
      ensures r.Success? ==> multiset(r.value) == multiset(messages)
    {
      r := if online then Success(messages) else Failure(IOError);
    }

    /** `query(WBMessage.class, "lcid", EQUAL, lcid)`. */
    method Query(lcid: string) returns (r: Result<seq<Message>, StorageError>)
      ensures r == if online then Success(WithLcid(messages, lcid)) else Failure(IOError)
    {
      r := if online then Success(WithLcid(messages, lcid)) else Failure(IOError);
    }

    /**
     * `queryWithSort(WBMessage.class, "lcid", EQUAL, lcid, property, order)`:
     * the matching records in an order the store chooses.
     */
    method QueryWithSort(lcid: string, property: string, order: SortOrder)
      returns (r: Result<seq<Message>, StorageError>)
      ensures r.Success? <==> online
      ensures r.Success? ==> multiset(r.value) == multiset(WithLcid(messages, lcid))
    {
      r := if online then Success(WithLcid(messages, lcid)) else Failure(IOError);
    }

    /** `get(key, WBMessage.class)`; `None` is a `null` record. */
    method Get(key: int) returns (r: Result<Option<Message>, StorageError>)
      ensures r == if online then Success(FindByKey(messages, key)) else Failure(IOError)
    {
      r := if online then Success(FindByKey(messages, key)) else Failure(IOError);
    }

    /** `add(record)`: appends the record and returns it. */
    method Add(m: Message) returns (r: Result<Message, StorageError>)
      modifies this
      ensures online == old(online)
      ensures r == if online then Success(m) else Failure(IOError)
      ensures messages == if online then old(messages) + [m] else old(messages)
    {
      if online {
        messages := messages + [m];
        r := Success(m);
      } else {
        r := Failure(IOError);
      }
    }

    /** `update(record)`: overwrites the record stored under the same key. */
    method Update(m: Message) returns (r: Result<Message, StorageError>)
      modifies this
      ensures online == old(online)
      ensures r == if online then Success(m) else Failure(IOError)
      ensures messages == if online then ReplaceByKey(old(messages), m) else old(messages)
    {
      if online {
        messages := ReplaceByKey(messages, m);
        r := Success(m);
      } else {
        r := Failure(IOError);
      }
    }
  }
}
