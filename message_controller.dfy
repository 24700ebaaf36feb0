/**
 * The message administration controller, below its HTTP plumbing: the
 * merge that compares the messages of a locale with those of a default
 * locale, the choice of a sorted or unsorted storage query, the fields that
 * `create` and `update` set, and the listener hook that refreshes the
 * messages cache when message records change. Request parameters arrive as
 * `Option<string>` (`None` is a missing parameter); a JSON reply is either
 * data or an errors map.
 */
module Messages {
  import opened Wrappers
  import opened JavaText
  import opened Storage
  import LocalMessages

  /** `AdminDataStorageOperation`: what a storage listener is told happened. */
  datatype Operation = CreateRecord | UpdateRecord | DeleteRecord | DeleteRecords

  /** The record class a storage notification is about. */
  datatype RecordClass = MessageClass | ResourceClass | OtherClass

  /** The WBErrors codes the controller answers with under the empty field name. */
  datatype ErrorCode = BadQueryParam | CantGetRecords | CantCreateRecord | CantUpdateRecord

  /** A JSON reply: data, the validator's field errors, or one error code. */
  datatype Reply<T> = Data(value: T) | Invalid(fieldErrors: map<string, string>) | Error(code: ErrorCode)

  // ---------------------------------------------------------------- sorting

  /* SORT_PARAMETER_DIRECTION_ASC and _DSC. WBController, which defines them,
     is not part of this model; they only need to differ ignoring case. */
  const SortDirectionAsc: string := "asc"
  const SortDirectionDsc: string := "dsc"

  /** The sort direction and property a reply's additional data records. */
  datatype SortInfo = SortInfo(direction: string, property: string)

  /** The storage query a listing uses, and what it records about it. */
  datatype SortPlan = Unsorted | Sorted(order: SortOrder, property: string, recorded: SortInfo)

  /** The direction name of a sort order. */
  function DirectionName(order: SortOrder): string
  {
    if order == Ascending then SortDirectionAsc else SortDirectionDsc
  }

  /**
   * The sort choice as the source writes it: a direction matching ASC or
   * DSC, ignoring case, together with a property, selects a sorted query;
   * the DSC branch records the ASC direction.
   */
  function SortPlanAsWritten(direction: Option<string>, property: Option<string>): (r: SortPlan)
    ensures r.Sorted? <==> direction.Some? && property.Some?
                           && (EqualsIgnoreCase(direction.value, SortDirectionAsc)
                               || EqualsIgnoreCase(direction.value, SortDirectionDsc))
    ensures r.Sorted? ==> EqualsIgnoreCase(direction.value, DirectionName(r.order))
                          && r.property == property.value
                          && r.recorded == SortInfo(SortDirectionAsc, property.value)
  {
    if direction.Some? && property.Some? then
      if EqualsIgnoreCase(direction.value, SortDirectionAsc) then
        Sorted(Ascending, property.value, SortInfo(SortDirectionAsc, property.value))
      else if EqualsIgnoreCase(direction.value, SortDirectionDsc) then
        Sorted(Descending, property.value, SortInfo(SortDirectionAsc, property.value))
      else Unsorted
    else Unsorted
  }

  /** A descending listing reports itself as ascending. */
  lemma DescendingRecordedAsAscending()
    ensures SortPlanAsWritten(Some("DSC"), Some("name"))
            == Sorted(Descending, "name", SortInfo(SortDirectionAsc, "name"))
  {
    assert LowerAscii("DSC") == "dsc";
    assert LowerAscii("dsc") == "dsc";
    assert LowerAscii("asc") == "asc";
    assert "dsc" != "asc" by { assert "dsc"[0] != "asc"[0]; }
  }

  /**
   * The sort choice with the direction recorded as the one queried: a
   * sorted query exactly when both parameters are present and the
   * direction is ASC or DSC ignoring case, in that direction.
   */
  function SortPlanOf(direction: Option<string>, property: Option<string>): (r: SortPlan)
    ensures r.Sorted? <==> direction.Some? && property.Some?
                           && (EqualsIgnoreCase(direction.value, SortDirectionAsc)
                               || EqualsIgnoreCase(direction.value, SortDirectionDsc))
    ensures r.Sorted? ==> EqualsIgnoreCase(direction.value, DirectionName(r.order))
                          && r.property == property.value
                          && r.recorded == SortInfo(DirectionName(r.order), property.value)
  {
    if direction.Some? && property.Some? then
      if EqualsIgnoreCase(direction.value, SortDirectionAsc) then
        Sorted(Ascending, property.value, SortInfo(SortDirectionAsc, property.value))
      else if EqualsIgnoreCase(direction.value, SortDirectionDsc) then
        Sorted(Descending, property.value, SortInfo(SortDirectionDsc, property.value))
      else Unsorted
    else Unsorted
  }

  /**
   * The two sort choices run the same query; they differ only in what a
   * descending listing records.
   */
  lemma SortPlanCorrection(direction: Option<string>, property: Option<string>)
    ensures SortPlanAsWritten(direction, property).Sorted? <==> SortPlanOf(direction, property).Sorted?
    ensures SortPlanOf(direction, property).Sorted? ==>
              var fixed := SortPlanOf(direction, property);
              var written := SortPlanAsWritten(direction, property);
              written.order == fixed.order && written.property == fixed.property
              && written.recorded == SortInfo(SortDirectionAsc, fixed.property)
              && (written.recorded == fixed.recorded <==> fixed.order == Ascending)
  {
  }

  // ------------------------------------------------------ comparing locales

  /** How a record of a comparison relates the two locales. */
  datatype Diff = Both | Current | Default

  /** One entry of a comparison: a record and its tag. */
  datatype Compared = Compared(message: Message, diff: Diff)

  /** The names of some message records. */
  function Names(ms: seq<Message>): set<string>
  {
    set m | m in ms :: m.name
  }

  /** The current-locale records, each tagged by whether the default locale has its name. */
  function Tagged(current: seq<Message>, defaultNames: set<string>): (r: seq<Compared>)
    ensures |r| == |current|
    ensures forall i :: 0 <= i < |r| ==>
              r[i].message == current[i]
              && r[i].diff == (if current[i].name in defaultNames then Both else Current)
  {
    if current == [] then []
    else
      var m := current[|current| - 1];
      Tagged(current[..|current| - 1], defaultNames)
      + [Compared(m, if m.name in defaultNames then Both else Current)]
  }

  /** The default-locale records whose names no current record has, in order, tagged `Default`. */
  function Unmatched(defaults: seq<Message>, currentNames: set<string>): (r: seq<Compared>)
    ensures |r| <= |defaults|
  {
    if defaults == [] then []
    else
      var front := defaults[..|defaults| - 1];
      var d := defaults[|defaults| - 1];
      Unmatched(front, currentNames) + (if d.name in currentNames then [] else [Compared(d, Default)])
  }

  /** Only default records whose name is not a current one are kept, tagged `Default`. */
  lemma {:induction false} UnmatchedElements(defaults: seq<Message>, currentNames: set<string>)
    ensures forall c :: c in Unmatched(defaults, currentNames) ==>
              c.diff == Default && c.message in defaults && c.message.name !in currentNames
  {
    if defaults != [] {
      var front := defaults[..|defaults| - 1];
      var d := defaults[|defaults| - 1];
      assert defaults == front + [d];
      UnmatchedElements(front, currentNames);
    }
  }

  /** A default record with an unmatched name is kept as often as it occurs; others are dropped. */
  lemma {:induction false} UnmatchedCounts(defaults: seq<Message>, currentNames: set<string>)
    ensures forall d :: multiset(Unmatched(defaults, currentNames))[Compared(d, Default)]
                        == if d.name in currentNames then 0 else multiset(defaults)[d]
  {
    if defaults != [] {
      var front := defaults[..|defaults| - 1];
      var d := defaults[|defaults| - 1];
      assert defaults == front + [d];
      UnmatchedCounts(front, currentNames);
    }
  }

  /**
   * The comparison of a locale with a default locale: every current record
   * tagged `Both` or `Current`, then the default records no current record
   * names, tagged `Default`.
   */
  function Merged(current: seq<Message>, defaults: seq<Message>): seq<Compared>
  {
    Tagged(current, Names(defaults)) + Unmatched(defaults, Names(current))
  }

  /**
   * Each current record appears once, in query order, first; it is tagged
   * `Both` exactly when some default record has its name.
   */
  lemma MergedKeepsCurrent(current: seq<Message>, defaults: seq<Message>)
    ensures |Merged(current, defaults)| >= |current|
    ensures forall i :: 0 <= i < |current| ==>
              Merged(current, defaults)[i].message == current[i]
              && (Merged(current, defaults)[i].diff == Both <==> exists d :: d in defaults && d.name == current[i].name)
              && (Merged(current, defaults)[i].diff == Current <==> forall d :: d in defaults ==> d.name != current[i].name)
  {
    var r := Merged(current, defaults);
    forall i | 0 <= i < |current|
      ensures r[i] == Tagged(current, Names(defaults))[i]
    {
    }
  }

  /**
   * After the current records come only default records whose names no
   * current record has, each as often as the default locale holds it.
   */
  lemma MergedAddsUnmatchedDefaults(current: seq<Message>, defaults: seq<Message>)
    ensures forall i :: |current| <= i < |Merged(current, defaults)| ==>
              Merged(current, defaults)[i].diff == Default
              && Merged(current, defaults)[i].message in defaults
              && Merged(current, defaults)[i].message.name !in Names(current)
    ensures forall d :: d in defaults && d.name !in Names(current) ==>
              multiset(Merged(current, defaults))[Compared(d, Default)] == multiset(defaults)[d]
    ensures forall d: Message :: d.name in Names(current) ==> Compared(d, Default) !in Merged(current, defaults)
  {
    var tagged := Tagged(current, Names(defaults));
    var rest := Unmatched(defaults, Names(current));
    var r := Merged(current, defaults);
    forall i | |current| <= i < |r|
      ensures r[i] in rest
    {
      assert r[i] == rest[i - |current|];
    }
    assert multiset(r) == multiset(tagged) + multiset(rest);
    UnmatchedCounts(defaults, Names(current));
    UnmatchedElements(defaults, Names(current));
    assert forall i :: 0 <= i < |tagged| ==> tagged[i].diff != Default;
    forall d: Message | d.name in Names(current)
      ensures Compared(d, Default) !in r
    {
      assert multiset(rest)[Compared(d, Default)] == 0;
    }
  }

  /**
   * When every default name is matched nothing is appended; otherwise the
   * comparison holds the current records plus the unmatched default ones.
   */
  lemma MergedLength(current: seq<Message>, defaults: seq<Message>)
    ensures Names(defaults) <= Names(current) ==> Merged(current, defaults) == Tagged(current, Names(defaults))
    ensures |Merged(current, defaults)| == |current| + |Unmatched(defaults, Names(current))|
    ensures |Merged(current, defaults)| <= |current| + |defaults|
  {
    if Names(defaults) <= Names(current) {
      NothingUnmatched(defaults, Names(current));
    }
  }

  lemma {:induction false} NothingUnmatched(defaults: seq<Message>, currentNames: set<string>)
    requires Names(defaults) <= currentNames
    ensures Unmatched(defaults, currentNames) == []
  {
    if defaults != [] {
      var front := defaults[..|defaults| - 1];
      var d := defaults[|defaults| - 1];
      assert defaults == front + [d];
      NamesOfAppend(front, d);
      NothingUnmatched(front, currentNames);
    }
  }

  lemma NamesOfAppend(ms: seq<Message>, m: Message)
    ensures Names(ms + [m]) == Names(ms) + {m.name}
  {
    assert forall x :: x in ms + [m] <==> x in ms || x == m;
  }

  lemma TaggedOfAppend(cs: seq<Message>, c: Message, defaultNames: set<string>)
    ensures Tagged(cs + [c], defaultNames)
            == Tagged(cs, defaultNames) + [Compared(c, if c.name in defaultNames then Both else Current)]
  {
    assert (cs + [c])[..|cs|] == cs;
  }

  lemma UnmatchedStep(ds: seq<Message>, i: nat, bkDefaultNames: set<string>, taken: set<string>)
    requires i < |ds| && bkDefaultNames == Names(ds) - taken
    ensures Unmatched(ds[..i + 1], taken)
            == Unmatched(ds[..i], taken) + (if ds[i].name in bkDefaultNames then [Compared(ds[i], Default)] else [])
  {
    assert ds[i] in ds;
    assert ds[..i + 1] == ds[..i] + [ds[i]];
    UnmatchedOfAppend(ds[..i], ds[i], taken);
  }

  lemma UnmatchedOfAppend(ds: seq<Message>, d: Message, currentNames: set<string>)
    ensures Unmatched(ds + [d], currentNames)
            == Unmatched(ds, currentNames) + (if d.name in currentNames then [] else [Compared(d, Default)])
  {
    assert (ds + [d])[..|ds|] == ds;
  }

  /**
   * `getByCompare`'s loops: the default records' names go into a map and a
   * set; each current record is tagged and its name dropped from the set;
   * then, if any name is left, the default records so named are appended.
   */
  method CompareWithDefaults(records: seq<Message>, defaultRecords: seq<Message>)
    returns (result: seq<Compared>)
    ensures result == Merged(records, defaultRecords)
  {
    var defaultRecordsMap := IndexByName(defaultRecords);
    var bkDefaultNames;
    result, bkDefaultNames := TagCurrent(records, defaultRecordsMap);
    if |bkDefaultNames| > 0 {
      result := AppendUnmatched(result, defaultRecords, bkDefaultNames, Names(records));
    } else {
      assert bkDefaultNames == {};
      forall x | x in Names(defaultRecords)
        ensures x in Names(records)
      {
        assert x !in bkDefaultNames;
      }
      MergedLength(records, defaultRecords);
    }
  }

  /** The first loop of the merge: the default records keyed by name. */
  method IndexByName(defaultRecords: seq<Message>) returns (defaultRecordsMap: map<string, Message>)
    ensures defaultRecordsMap.Keys == Names(defaultRecords)
  {
    defaultRecordsMap := map[];
    for i := 0 to |defaultRecords|
      invariant defaultRecordsMap.Keys == Names(defaultRecords[..i])
    {
      defaultRecordsMap := defaultRecordsMap[defaultRecords[i].name := defaultRecords[i]];
      assert defaultRecords[..i + 1] == defaultRecords[..i] + [defaultRecords[i]];
      NamesOfAppend(defaultRecords[..i], defaultRecords[i]);
    }
    assert defaultRecords[..|defaultRecords|] == defaultRecords;
  }

  /**
   * The second loop of the merge: every current record tagged by whether a
   * default shares its name, and the default names no current record took.
   */
  method TagCurrent(records: seq<Message>, defaultRecordsMap: map<string, Message>)
    returns (result: seq<Compared>, bkDefaultNames: set<string>)
    ensures result == Tagged(records, defaultRecordsMap.Keys)
    ensures bkDefaultNames == defaultRecordsMap.Keys - Names(records)
  {
    bkDefaultNames := defaultRecordsMap.Keys;
    result := [];
    for i := 0 to |records|
      invariant result == Tagged(records[..i], defaultRecordsMap.Keys)
      invariant bkDefaultNames == defaultRecordsMap.Keys - Names(records[..i])
    {
      var name := records[i].name;
      var diff := Both;
      if name !in defaultRecordsMap {
        diff := Current;
      }
      result := result + [Compared(records[i], diff)];
      bkDefaultNames := bkDefaultNames - {name};
      assert records[..i + 1] == records[..i] + [records[i]];
      TaggedOfAppend(records[..i], records[i], defaultRecordsMap.Keys);
      NamesOfAppend(records[..i], records[i]);
    }
    assert records[..|records|] == records;
  }

  /** The third loop of the merge: the defaults whose name is left over, in order. */
  method AppendUnmatched(tagged: seq<Compared>, defaultRecords: seq<Message>, bkDefaultNames: set<string>,
                         ghost taken: set<string>)
    returns (result: seq<Compared>)
    requires bkDefaultNames == Names(defaultRecords) - taken
    ensures result == tagged + Unmatched(defaultRecords, taken)
  {
    result := tagged;
    for i := 0 to |defaultRecords|
      invariant result == tagged + Unmatched(defaultRecords[..i], taken)
    {
      UnmatchedStep(defaultRecords, i, bkDefaultNames, taken);
      if defaultRecords[i].name in bkDefaultNames {
        result := result + [Compared(defaultRecords[i], Default)];
      }
    }
    assert defaultRecords[..|defaultRecords|] == defaultRecords;
  }

  // ------------------------------------------------------------ the records

  /**
   * The record `create` stores: name and lcid trimmed, stamped with the
   * time of creation and a fresh external key; the rest as received.
   */
  function Created(record: Message, now: int, uniqueId: string): (r: Message)
    ensures r.name == Trim(record.name) && r.lcid == Trim(record.lcid)
    ensures r.value == record.value && r.isTranslated == record.isTranslated && r.privkey == record.privkey
    ensures r.lastModified == now && r.externalKey == uniqueId
  {
    record.(name := Trim(record.name), lcid := Trim(record.lcid), lastModified := now, externalKey := uniqueId)
  }

  /** Creating from a record already created keeps its name and lcid. */
  lemma CreatedIsStable(record: Message, now: int, uniqueId: string, later: int, otherId: string)
    ensures var once := Created(record, now, uniqueId);
            var twice := Created(once, later, otherId);
            twice.name == once.name && twice.lcid == once.lcid
  {
    TrimIdempotent(record.name);
    TrimIdempotent(record.lcid);
  }

  /**
   * The record `update` stores: the stored message with the new value and
   * the time of the update; its key, external key, name, lcid and
   * translation flag stay as stored.
   */
  function Revised(existing: Message, record: Message, now: int): (r: Message)
    ensures r.value == record.value && r.lastModified == now
    ensures r.privkey == existing.privkey && r.externalKey == existing.externalKey
    ensures r.name == existing.name && r.lcid == existing.lcid && r.isTranslated == existing.isTranslated
  {
    existing.(value := record.value, lastModified := now)
  }

  // ------------------------------------------------------------ controller

  class MessageController {
    const adminStorage: AdminDataStorage
    const messagesCache: LocalMessages.MessagesCache

    /** The cache reads the controller's store and keeps its own invariant. */
    ghost predicate Valid()
      reads this, messagesCache
    {
      messagesCache.Valid() && messagesCache.dataStorage == adminStorage
    }

    constructor (storage: AdminDataStorage, cache: LocalMessages.MessagesCache)
      requires cache.Valid() && cache.dataStorage == storage
      ensures Valid() && adminStorage == storage && messagesCache == cache
    {
      adminStorage := storage;
      messagesCache := cache;
    }

    /**
     * `notify`: a change to message records refreshes the messages cache
     * with `newFingerPrint`; a failed refresh is ignored, and notifications
     * about other classes change nothing.
     */
    method Notify(operation: Operation, recordClass: RecordClass, newFingerPrint: Long)
      requires Valid()
      modifies messagesCache
      ensures Valid()
      ensures recordClass != MessageClass || !adminStorage.online ==>
                && messagesCache.cacheMessages == old(messagesCache.cacheMessages)
                && messagesCache.cacheFingerPrint == old(messagesCache.cacheFingerPrint)
                && messagesCache.snapshot == old(messagesCache.snapshot)
      ensures recordClass == MessageClass && adminStorage.online ==>
                && messagesCache.cacheMessages == Some(LocalMessages.Group(adminStorage.messages))
                && messagesCache.cacheFingerPrint == newFingerPrint
                && messagesCache.snapshot == adminStorage.messages
    {
      if recordClass == MessageClass {
        var _ := messagesCache.Refresh(newFingerPrint);
      }
    }

    /**
     * `getAll`: a sorted listing (of one locale when `lcid` is given) when
     * the sort parameters select one, else every record; any storage failure
     * answers `CantGetRecords`. The sort is recorded as the code records it,
     * so a descending listing reports `asc` (`SortPlanAsWritten`).
     */
    method GetAll(lcid: Option<string>, sortDirection: Option<string>, sortProperty: Option<string>)
      returns (reply: Reply<(seq<Message>, Option<SortInfo>)>)
      ensures !adminStorage.online ==> reply == Error(CantGetRecords)
      ensures adminStorage.online ==> reply.Data?
      ensures reply.Data? ==>
                var plan := SortPlanAsWritten(sortDirection, sortProperty);
                && reply.value.1 == (if plan.Sorted? then Some(plan.recorded) else None)
                && (plan.Unsorted? ==> reply.value.0 == adminStorage.messages)
                && (plan.Sorted? && lcid.Some? ==>
                      multiset(reply.value.0) == multiset(WithLcid(adminStorage.messages, lcid.value)))
                && (plan.Sorted? && lcid.None? ==> multiset(reply.value.0) == multiset(adminStorage.messages))
    {
      var plan := SortPlanAsWritten(sortDirection, sortProperty);
      var allRecords: Result<seq<Message>, StorageError>;
      if plan.Sorted? {
        if lcid.Some? {
          allRecords := adminStorage.QueryWithSort(lcid.value, plan.property, plan.order);
        } else {
          allRecords := adminStorage.GetAllRecordsSorted(plan.property, plan.order);
        }
      } else {
        allRecords := adminStorage.GetAllRecords();
      }
      if allRecords.Failure? {
        return Error(CantGetRecords);
      }
      reply := Data((allRecords.value, if plan.Sorted? then Some(plan.recorded) else None));
    }

    /**
     * `getByCompare`: compares the messages of `lcid` with those of the
     * default locale `dlcid`. A missing locale parameter answers
     * `BadQueryParam` before any query; a storage failure `CantGetRecords`.
     * The ghost results are the two listings as the store returned them.
     * The sort is recorded as in `getAll`, `asc` for a descending comparison.
     */
    method GetByCompare(lcid: Option<string>, dlcid: Option<string>,
                        sortDirection: Option<string>, sortProperty: Option<string>)
      returns (reply: Reply<(seq<Compared>, Option<SortInfo>)>,
               ghost current: seq<Message>, ghost defaults: seq<Message>)
      ensures lcid.None? || dlcid.None? ==> reply == Error(BadQueryParam)
      ensures lcid.Some? && dlcid.Some? && !adminStorage.online ==> reply == Error(CantGetRecords)
      ensures lcid.Some? && dlcid.Some? && adminStorage.online ==> reply.Data?
      ensures reply.Data? ==>
                var plan := SortPlanAsWritten(sortDirection, sortProperty);
                && lcid.Some? && dlcid.Some?
                && reply.value.0 == Merged(current, defaults)
                && reply.value.1 == (if plan.Sorted? then Some(plan.recorded) else None)
                && multiset(current) == multiset(WithLcid(adminStorage.messages, lcid.value))
                && multiset(defaults) == multiset(WithLcid(adminStorage.messages, dlcid.value))
                && (plan.Unsorted? ==> current == WithLcid(adminStorage.messages, lcid.value)
                                       && defaults == WithLcid(adminStorage.messages, dlcid.value))
    {
      current, defaults := [], [];
      if lcid.None? || dlcid.None? {
        return Error(BadQueryParam), current, defaults;
      }
      var plan := SortPlanAsWritten(sortDirection, sortProperty);
      var defaultRecords: Result<seq<Message>, StorageError>;
      var records: Result<seq<Message>, StorageError>;
      if plan.Sorted? {
        defaultRecords := adminStorage.QueryWithSort(dlcid.value, plan.property, plan.order);
        records := adminStorage.QueryWithSort(lcid.value, plan.property, plan.order);
      } else {
        defaultRecords := adminStorage.Query(dlcid.value);
        records := adminStorage.Query(lcid.value);
      }
      if defaultRecords.Failure? || records.Failure? {
        return Error(CantGetRecords), current, defaults;
      }
      current, defaults := records.value, defaultRecords.value;
      var compared := CompareWithDefaults(records.value, defaultRecords.value);
      reply := Data((compared, if plan.Sorted? then Some(plan.recorded) else None));
    }

    /**
     * `create`: a record the validator finds errors in is not stored and
     * the errors are the reply; otherwise the normalised record is added.
     */
    method Create(record: Message, errors: map<string, string>, now: int, uniqueId: string)
      returns (reply: Reply<Message>)
      modifies adminStorage
      ensures adminStorage.online == old(adminStorage.online)
      ensures |errors| > 0 ==> reply == Invalid(errors) && adminStorage.messages == old(adminStorage.messages)
      ensures |errors| == 0 && !adminStorage.online ==>
                reply == Error(CantCreateRecord) && adminStorage.messages == old(adminStorage.messages)
      ensures |errors| == 0 && adminStorage.online ==>
                && reply == Data(Created(record, now, uniqueId))
                && adminStorage.messages == old(adminStorage.messages) + [Created(record, now, uniqueId)]
    {
      if |errors| > 0 {
        return Invalid(errors);
      }
      var added := adminStorage.Add(Created(record, now, uniqueId));
      if added.Failure? {
        return Error(CantCreateRecord);
      }
      reply := Data(added.value);
    }

    /**
     * `update`: the key must parse as a Java long, the validator must find
     * no errors and a message must be stored under the key; that message
     * then gets the new value and time. Every other failure answers
     * `CantUpdateRecord`.
     */
    method Update(key: string, record: Message, errors: map<string, string>, now: int)
      returns (reply: Reply<Message>)
      modifies adminStorage
      ensures adminStorage.online == old(adminStorage.online)
      ensures LongValueOf(key).None? ==>
                reply == Error(CantUpdateRecord) && adminStorage.messages == old(adminStorage.messages)
      ensures LongValueOf(key).Some? && |errors| > 0 ==>
                reply == Invalid(errors) && adminStorage.messages == old(adminStorage.messages)
      ensures LongValueOf(key).Some? && |errors| == 0 ==>
                var existing := FindByKey(old(adminStorage.messages), LongValueOf(key).value);
                if adminStorage.online && existing.Some? then
                  && reply == Data(Revised(existing.value, record, now))
                  && adminStorage.messages == ReplaceByKey(old(adminStorage.messages), Revised(existing.value, record, now))
                else
                  reply == Error(CantUpdateRecord) && adminStorage.messages == old(adminStorage.messages)
    {
      var privkey := LongValueOf(key);
      if privkey.None? {
        return Error(CantUpdateRecord);
      }
      if |errors| > 0 {
        return Invalid(errors);
      }
      var found := adminStorage.Get(privkey.value);
      if found.Failure? || found.value.None? {
        return Error(CantUpdateRecord);
      }
      var updated := adminStorage.Update(Revised(found.value.value, record, now));
      if updated.Failure? {
        return Error(CantUpdateRecord);
      }
      reply := Data(updated.value);
    }
  }
}
