/**
 * The local messages cache (WPBLocalMessagesCache): an in-memory read cache of
 * every message record, grouped by locale id and then by message name, plus a
 * cache-wide fingerprint that changes on every successful refresh.
 *
 * A refresh reads all records in one pass, builds a fresh nested map and only
 * then publishes it together with a new fingerprint; a failed read publishes
 * nothing. The random fingerprint is an input of `Refresh`.
 */
module LocalMessages {
  import opened Wrappers
  import opened JavaText
  import opened Storage

  /** locale id -> (message name -> message value) */
  type Snapshot = map<string, map<string, string>>

  // ------------------------------------------------------------ locale ids

  /** `lcidFromLocale`: `language_COUNTRY`, or the bare language without a country. */
  function LcidFromLocale(language: string, country: string): (r: string)
    ensures |language| <= |r| && r[..|language|] == language
    ensures |country| == 0 ==> r == language
    ensures |country| > 0 ==> r[|language|..] == "_" + country
  {
    if |country| > 0 then language + "_" + country else language
  }

  /** Reads a locale id back as (language, country). */
  function LocaleOfLcid(lcid: string): (string, string)
  {
    match IndexOf(lcid, '_')
    case None => (lcid, "")
    case Some(k) => (lcid[..k], lcid[k + 1..])
  }

  /**
   * A locale id determines its locale when languages hold no `_`: the id
   * built from a (language, country) pair reads back as that pair.
   */
  lemma LcidRoundTrip(language: string, country: string)
    requires '_' !in language
    ensures LocaleOfLcid(LcidFromLocale(language, country)) == (language, country)
  {
    if |country| > 0 {
      var lcid := language + "_" + country;
      IndexOfAfter(language, '_', country);
      assert lcid == language + ['_'] + country;
      assert lcid[..|language|] == language;
      assert lcid[|language| + 1..] == country;
    }
  }

  /** Two locales share a cache partition only when they are the same locale. */
  lemma LcidInjective(l1: string, c1: string, l2: string, c2: string)
    requires '_' !in l1 && '_' !in l2
    ensures LcidFromLocale(l1, c1) == LcidFromLocale(l2, c2) <==> l1 == l2 && c1 == c2
  {
    LcidRoundTrip(l1, c1);
    LcidRoundTrip(l2, c2);
  }

  // -------------------------------------------------------------- grouping

  /** One step of the refresh loop: file `m` under its lcid and name. */
  function Put(g: Snapshot, m: Message): (r: Snapshot)
    ensures r.Keys == g.Keys + {m.lcid}
  {
    var inner := if m.lcid in g then g[m.lcid] else map[];
    g[m.lcid := inner[m.name := m.value]]
  }

  /**
   * A step creates the partition of `m`'s lcid when it is that lcid's first
   * record and sets `m`'s name to `m`'s value in it; every other entry
   * stays as it was.
   */
  lemma PutMeaning(g: Snapshot, m: Message)
    ensures m.lcid in Put(g, m) && m.name in Put(g, m)[m.lcid]
    ensures Put(g, m)[m.lcid].Keys == (if m.lcid in g then g[m.lcid].Keys else {}) + {m.name}
    ensures Put(g, m)[m.lcid][m.name] == m.value
    ensures forall name :: m.lcid in g && name in g[m.lcid] && name != m.name ==>
              Put(g, m)[m.lcid][name] == g[m.lcid][name]
    ensures forall lcid :: lcid in g && lcid != m.lcid ==> Put(g, m)[lcid] == g[lcid]
  {
  }

  /** The snapshot a refresh builds from `rs`, read in storage order. */
  function Group(rs: seq<Message>): Snapshot
  {
    if rs == [] then map[] else Put(Group(rs[..|rs| - 1]), rs[|rs| - 1])
  }

  /** The locale ids of `rs`. */
  function Lcids(rs: seq<Message>): set<string>
  {
    set m | m in rs :: m.lcid
  }

  ghost predicate HasEntry(g: Snapshot, lcid: string, name: string, value: string)
  {
    lcid in g && name in g[lcid] && g[lcid][name] == value
  }

  /** `rs[i]` is the last record with this lcid and name. */
  ghost predicate IsLastWith(rs: seq<Message>, i: int, lcid: string, name: string)
  {
    && 0 <= i < |rs|
    && rs[i].lcid == lcid && rs[i].name == name
    && forall j :: i < j < |rs| ==> !(rs[j].lcid == lcid && rs[j].name == name)
  }

  /** The partitions of a snapshot are exactly the locale ids of the records read. */
  lemma {:induction false} GroupKeys(rs: seq<Message>)
    ensures Group(rs).Keys == Lcids(rs)
  {
    if rs != [] {
      var p := rs[..|rs| - 1];
      GroupKeys(p);
      assert rs == p + [rs[|rs| - 1]];
      assert Lcids(rs) == Lcids(p) + {rs[|rs| - 1].lcid};
    }
  }

  /** No partition of a snapshot is empty. */
  lemma {:induction false} GroupPartitionsNonEmpty(rs: seq<Message>)
    ensures forall lcid :: lcid in Group(rs) ==> |Group(rs)[lcid]| > 0
  {
    if rs != [] {
      GroupPartitionsNonEmpty(rs[..|rs| - 1]);
      var m := rs[|rs| - 1];
      assert m.name in Group(rs)[m.lcid];
    }
  }

  /**
   * `snapshot[lcid][name] == value` exactly when the last record read with
   * that lcid and name carries that value: later duplicates overwrite earlier ones.
   */
  lemma {:induction false} GroupValue(rs: seq<Message>, lcid: string, name: string, value: string)
    ensures HasEntry(Group(rs), lcid, name, value)
            <==> exists i :: IsLastWith(rs, i, lcid, name) && rs[i].value == value
  {
    if rs != [] {
      var p := rs[..|rs| - 1];
      var last := rs[|rs| - 1];
      GroupValue(p, lcid, name, value);
      if last.lcid == lcid && last.name == name {
        assert IsLastWith(rs, |rs| - 1, lcid, name);
        forall i | IsLastWith(rs, i, lcid, name)
          ensures i == |rs| - 1
        {
        }
      } else {
        assert HasEntry(Group(rs), lcid, name, value) <==> HasEntry(Group(p), lcid, name, value);
        forall i
          ensures IsLastWith(rs, i, lcid, name) <==> IsLastWith(p, i, lcid, name)
        {
          assert forall j :: 0 <= j < |p| ==> p[j] == rs[j];
        }
        if HasEntry(Group(p), lcid, name, value) {
          var i :| IsLastWith(p, i, lcid, name) && p[i].value == value;
          assert IsLastWith(rs, i, lcid, name) && rs[i].value == value;
        }
      }
    }
  }

  /** A name is in a partition exactly when some record read has that lcid and name. */
  lemma GroupNames(rs: seq<Message>, lcid: string, name: string)
    ensures (lcid in Group(rs) && name in Group(rs)[lcid])
            <==> exists m :: m in rs && m.lcid == lcid && m.name == name
  {
    if lcid in Group(rs) && name in Group(rs)[lcid] {
      GroupValue(rs, lcid, name, Group(rs)[lcid][name]);
    } else if m :| m in rs && m.lcid == lcid && m.name == name {
      var i := LastIndexWith(rs, lcid, name);
      GroupValue(rs, lcid, name, rs[i].value);
    }
  }

  /** Some record has this lcid and name, so one of them is the last. */
  lemma {:induction false} LastIndexWith(rs: seq<Message>, lcid: string, name: string) returns (i: int)
    requires exists m :: m in rs && m.lcid == lcid && m.name == name
    ensures IsLastWith(rs, i, lcid, name)
  {
    var last := rs[|rs| - 1];
    if last.lcid == lcid && last.name == name {
      i := |rs| - 1;
    } else {
      var p := rs[..|rs| - 1];
      var m :| m in rs && m.lcid == lcid && m.name == name;
      assert m in p;
      i := LastIndexWith(p, lcid, name);
    }
  }

  lemma PartitionMeaning(rs: seq<Message>, lcid: string)
    requires lcid in Group(rs)
    ensures forall name :: name in Group(rs)[lcid]
              <==> exists m :: m in rs && m.lcid == lcid && m.name == name
    ensures forall name :: name in Group(rs)[lcid] ==>
              exists i :: IsLastWith(rs, i, lcid, name) && rs[i].value == Group(rs)[lcid][name]
  {
    forall name ensures name in Group(rs)[lcid]
                        <==> exists m :: m in rs && m.lcid == lcid && m.name == name {
      GroupNames(rs, lcid, name);
    }
    forall name | name in Group(rs)[lcid]
      ensures exists i :: IsLastWith(rs, i, lcid, name) && rs[i].value == Group(rs)[lcid][name]
    {
      GroupValue(rs, lcid, name, Group(rs)[lcid][name]);
    }
  }

  // ----------------------------------------------------------------- cache

  class MessagesCache {
    /** The fingerprint published by the last successful refresh (0 before). */
    var cacheFingerPrint: Long
    /** The published snapshot; `None` until a refresh succeeds. */
    var cacheMessages: Option<Snapshot>
    /** The store the cache reads; `null` when none was configured. */
    const dataStorage: AdminDataStorage?
    /** The records read by the last successful refresh. */
    ghost var snapshot: seq<Message>

    ghost predicate Valid()
      reads this
    {
      cacheMessages.Some? ==> cacheMessages.value == Group(snapshot)
    }

    /**
     * Builds the cache over `storage` and refreshes it once when there is a
     * store; a failed first refresh leaves the cache unbuilt.
     */
    constructor (storage: AdminDataStorage?, fingerPrint: Long)
      ensures Valid() && dataStorage == storage
      ensures if storage != null && storage.online
              then && cacheMessages == Some(Group(storage.messages))
                   && snapshot == storage.messages
                   && cacheFingerPrint == fingerPrint
              else cacheMessages == None && cacheFingerPrint == 0
    {
      dataStorage := storage;
      cacheFingerPrint := 0;
      cacheMessages := None;
      snapshot := [];
      new;
      if storage != null {
        var outcome := Refresh(fingerPrint);
      }
    }

    /**
     * The messages of one locale id: an empty map while the cache is
     * unbuilt, `None` (Java `null`) for a locale id no record has.
     */
    function GetAllMessages(lcid: string): (r: Option<map<string, string>>)
      reads this
      requires Valid()
      ensures cacheMessages.None? ==> r == Some(map[])
      ensures cacheMessages.Some? ==> (r.Some? <==> exists m :: m in snapshot && m.lcid == lcid)
      ensures cacheMessages.Some? && r.Some? ==>
                && |r.value| > 0
                && (forall name :: name in r.value
                      <==> exists m :: m in snapshot && m.lcid == lcid && m.name == name)
                && (forall name :: name in r.value ==>
                      exists i :: IsLastWith(snapshot, i, lcid, name) && snapshot[i].value == r.value[name])
    {
      match cacheMessages
      case None => Some(map[])
      case Some(g) =>
        GroupKeys(snapshot);
        GroupPartitionsNonEmpty(snapshot);
        if lcid in g then
          PartitionMeaning(snapshot, lcid);
          Some(g[lcid])
        else None
    }

    /** `getAllMessages(Locale)`: the partition of the locale's id. */
    function GetAllMessagesForLocale(language: string, country: string): (r: Option<map<string, string>>)
      reads this
      requires Valid()
      ensures cacheMessages.None? ==> r == Some(map[])
      ensures cacheMessages.Some? ==>
                (r.Some? <==> exists m :: m in snapshot && m.lcid == LcidFromLocale(language, country))
      ensures cacheMessages.Some? && r.Some? ==>
                var lcid := LcidFromLocale(language, country);
                && |r.value| > 0
                && (forall name :: name in r.value
                      <==> exists m :: m in snapshot && m.lcid == lcid && m.name == name)
                && (forall name :: name in r.value ==>
                      exists i :: IsLastWith(snapshot, i, lcid, name) && snapshot[i].value == r.value[name])
    {
      GetAllMessages(LcidFromLocale(language, country))
    }

    /** `getFingerPrint(locale)`: one cache-wide value, whatever the locale. */
    function GetFingerPrint(language: string, country: string): (r: Long)
      reads this
      ensures r == cacheFingerPrint
    {
      cacheFingerPrint
    }

    /**
     * `getSupportedLocales`: the locale ids of the records read by the last
     * successful refresh; `None` is the NullPointerException of an unbuilt cache.
     */
    function GetSupportedLocales(): (r: Option<set<string>>)
      reads this
      requires Valid()
      ensures r.None? <==> cacheMessages.None?
      ensures r.Some? ==> r.value == Lcids(snapshot)
    {
      match cacheMessages
      case None => None
      case Some(g) =>
        GroupKeys(snapshot);
        Some(g.Keys)
    }

    /**
     * `Refresh`: reads every record, groups them into a fresh map and
     * publishes it with `newFingerPrint`; if the read fails nothing changes.
     */
    method Refresh(newFingerPrint: Long) returns (outcome: Outcome<StorageError>)
      requires Valid() && dataStorage != null
      modifies this`cacheMessages, this`cacheFingerPrint, this`snapshot
      ensures Valid()
      ensures outcome == if dataStorage.online then Pass else Fail(IOError)
      ensures outcome.Pass? ==> && cacheMessages == Some(Group(dataStorage.messages))
                                && snapshot == dataStorage.messages
                                && cacheFingerPrint == newFingerPrint
      ensures outcome.Fail? ==> && cacheMessages == old(cacheMessages)
                                && cacheFingerPrint == old(cacheFingerPrint)
                                && snapshot == old(snapshot)
    {
      var read := dataStorage.GetAllRecords();
      if read.Failure? {
        return Fail(read.error);
      }
      var records := read.value;
      var tempCache: Snapshot := map[];
      for i := 0 to |records|
        invariant tempCache == Group(records[..i])
      {
        var item := records[i];
        var lcidRecords := if item.lcid in tempCache then tempCache[item.lcid] else map[];
        tempCache := tempCache[item.lcid := lcidRecords[item.name := item.value]];
        assert records[..i + 1][..i] == records[..i];
      }
      assert records[..|records|] == records;
      cacheMessages := Some(tempCache);
      cacheFingerPrint := newFingerPrint;
      snapshot := records;
      outcome := Pass;
    }
  }
}
