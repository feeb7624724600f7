/** The status-only reading of a webhook body: deserialization into records, then the test that nothing
    but statuses came in. Records read objects by field name and arrays by position. */
module StatusUpdates {
  import opened Wrappers
  import opened Webhook

  const ACCOUNT := "whatsapp_business_account"
  const TWO64 := 0x1_0000_0000_0000_0000

  // ---- reading records ----

  /** The present members of a record with the given field names. An array gives its members in order;
      it may leave out members after the first `least` and may not be longer than the record. */
  function Members(v: Json, names: seq<string>, least: nat): Option<map<string, Json>> {
    match v
    case Obj(fields) => Some(fields)
    case Arr(items) => if least <= |items| <= |names| then Some(Positional(names, items)) else None
    case _ => None
  }

  function Positional(names: seq<string>, items: seq<Json>): map<string, Json>
    requires |items| <= |names|
  {
    if items == [] then map[]
    else Positional(names, items[..|items| - 1])[names[|items| - 1] := items[|items| - 1]]
  }

  function Text(v: Json): Option<string> {
    if v.Str? then Some(v.text) else None
  }

  function Unsigned(v: Json): Option<nat> {
    if v.Integer? && 0 <= v.whole < TWO64 then Some(v.whole) else None
  }

  function Any(v: Json): Option<Json> {
    Some(v)
  }

  /** A required member. */
  function Required<T>(members: map<string, Json>, name: string, read: Json -> Option<T>): Option<T> {
    if name in members then read(members[name]) else None
  }

  /** An optional member: absent and null both read as nothing. */
  function Optional<T>(members: map<string, Json>, name: string, read: Json -> Option<T>): Option<Option<T>> {
    if name !in members || members[name].Null? then Some(None)
    else var r := read(members[name]); if r.Some? then Some(r) else None
  }

  /** A list member that defaults to the empty list when absent (but not when null). */
  function Defaulted<T>(members: map<string, Json>, name: string, read: Json -> Option<T>): Option<seq<T>> {
    if name !in members then Some([]) else ReadList(members[name], read)
  }

  function ReadList<T>(v: Json, read: Json -> Option<T>): Option<seq<T>> {
    if v.Arr? then ReadAll(v.items, read) else None
  }

  function ReadAll<T>(items: seq<Json>, read: Json -> Option<T>): (r: Option<seq<T>>)
    ensures r.Some? ==> |r.value| == |items| && forall i :: 0 <= i < |items| ==> read(items[i]) == Some(r.value[i])
  {
    if items == [] then Some([])
    else
      var before, last := ReadAll(items[..|items| - 1], read), read(items[|items| - 1]);
      if before.Some? && last.Some? then Some(before.value + [last.value]) else None
  }

  /** A member of a record, in either form. */
  function Member(v: Json, names: seq<string>, least: nat, key: string): Option<Json> {
    var m := Members(v, names, least);
    if m.Some? && key in m.value then Some(m.value[key]) else None
  }

  function Items(v: Option<Json>): seq<Json> {
    if v.Some? && v.value.Arr? then v.value.items else []
  }

  const ENVELOPE := ["object", "entry"]
  const ENTRY := ["changes"]
  const CHANGE := ["value"]
  const VALUE := ["statuses", "messages"]

  // ---- the records ----

  datatype StatusError = StatusError(code: Option<nat>, title: Option<string>, message: Option<string>)
  datatype Update = Update(id: string, status: string, callback: Option<string>, errors: seq<StatusError>)
  datatype Change = Change(statuses: Option<seq<Update>>, messages: Option<Json>)
  datatype Entry = Entry(changes: seq<Change>)
  datatype Envelope = Envelope(account: string, entries: seq<Entry>)

  function ReadError(v: Json): Option<StatusError> {
    var m := Members(v, ["code", "title", "message"], 0);
    if m.None? then None
    else
      var code, title, message := Optional(m.value, "code", Unsigned), Optional(m.value, "title", Text), Optional(m.value, "message", Text);
      if code.Some? && title.Some? && message.Some? then Some(StatusError(code.value, title.value, message.value)) else None
  }

  function ReadUpdate(v: Json): Option<Update> {
    var m := Members(v, ["id", "status", "biz_opaque_callback_data", "errors"], 2);
    if m.None? then None
    else
      var id, status := Required(m.value, "id", Text), Required(m.value, "status", Text);
      var callback, errors := Optional(m.value, "biz_opaque_callback_data", Text), Defaulted(m.value, "errors", ReadError);
      if id.Some? && status.Some? && callback.Some? && errors.Some?
      then Some(Update(id.value, status.value, callback.value, errors.value)) else None
  }

  function ReadUpdates(v: Json): Option<seq<Update>> {
    ReadList(v, ReadUpdate)
  }

  function ReadValue(v: Json): Option<Change> {
    var m := Members(v, VALUE, 2);
    if m.None? then None
    else
      var statuses, messages := Optional(m.value, "statuses", ReadUpdates), Optional(m.value, "messages", Any);
      if statuses.Some? && messages.Some? then Some(Change(statuses.value, messages.value)) else None
  }

  function ReadChange(v: Json): Option<Change> {
    var m := Members(v, CHANGE, 1);
    if m.None? then None else Required(m.value, "value", ReadValue)
  }

  function ReadEntry(v: Json): Option<Entry> {
    var m := Members(v, ENTRY, 0);
    if m.None? then None
    else
      var changes := Defaulted(m.value, "changes", ReadChange);
      if changes.Some? then Some(Entry(changes.value)) else None
  }

  function ReadEnvelope(v: Json): Option<Envelope> {
    var m := Members(v, ENVELOPE, 1);
    if m.None? then None
    else
      var account, entries := Required(m.value, "object", Text), Defaulted(m.value, "entry", ReadEntry);
      if account.Some? && entries.Some? then Some(Envelope(account.value, entries.value)) else None
  }

  // ---- nothing but statuses ----

  /** A change with statuses and no messages. */
  predicate StatusOnly(change: Change) {
    change.messages.None? && change.statuses.Some?
  }

  predicate EntryStatusOnly(entry: Entry) {
    forall c :: 0 <= c < |entry.changes| ==> StatusOnly(entry.changes[c])
  }

  predicate AllStatusOnly(entries: seq<Entry>) {
    forall e :: 0 <= e < |entries| ==> EntryStatusOnly(entries[e])
  }

  function ChangesUpdates(changes: seq<Change>): seq<Update> {
    if changes == [] then []
    else
      var last := changes[|changes| - 1];
      ChangesUpdates(changes[..|changes| - 1]) + (if last.statuses.Some? then last.statuses.value else [])
  }

  function EntriesUpdates(entries: seq<Entry>): seq<Update> {
    if entries == [] then []
    else EntriesUpdates(entries[..|entries| - 1]) + ChangesUpdates(entries[|entries| - 1].changes)
  }

  /** The status-only path takes a body exactly when it reads as an envelope of the right account whose
      changes all carry statuses and no messages, with at least one update; it takes all the updates in
      document order. */
  function Taken(body: Option<Json>): Option<seq<Update>> {
    var envelope := if body.Some? then ReadEnvelope(body.value) else None;
    if envelope.None? || envelope.value.account != ACCOUNT || !AllStatusOnly(envelope.value.entries) then None
    else
      var updates := EntriesUpdates(envelope.value.entries);
      if updates == [] then None else Some(updates)
  }

  method StatusUpdatesIfOnly(body: Option<Json>) returns (r: Option<seq<Update>>)
    ensures r == Taken(body)
  {
    if body.None? {
      return None;
    }
    var envelope := ReadEnvelope(body.value);
    if envelope.None? || envelope.value.account != ACCOUNT {
      return None;
    }
    var updates := CollectEntries(envelope.value.entries);
    r := if updates == Some([]) then None else updates;
  }

  method CollectEntries(entries: seq<Entry>) returns (r: Option<seq<Update>>)
    ensures r.Some? <==> AllStatusOnly(entries)
    ensures r.Some? ==> r.value == EntriesUpdates(entries)
  {
    var updates := [];
    for e := 0 to |entries|
      invariant forall k :: 0 <= k < e ==> EntryStatusOnly(entries[k])
      invariant updates == EntriesUpdates(entries[..e])
    {
      var some := CollectChanges(entries[e].changes);
      if some.None? {
        assert !EntryStatusOnly(entries[e]);
        return None;
      }
      updates := updates + some.value;
      assert entries[..e + 1][..e] == entries[..e];
    }
    assert entries[..|entries|] == entries;
    r := Some(updates);
  }

  /** The inner loop: the updates of one entry, unless a change is not status-only. */
  method CollectChanges(changes: seq<Change>) returns (r: Option<seq<Update>>)
    ensures r.Some? <==> forall c :: 0 <= c < |changes| ==> StatusOnly(changes[c])
    ensures r.Some? ==> r.value == ChangesUpdates(changes)
  {
    var updates := [];
    for c := 0 to |changes|
      invariant forall k :: 0 <= k < c ==> StatusOnly(changes[k])
      invariant updates == ChangesUpdates(changes[..c])
    {
      var change := changes[c];
      if change.messages.Some? {
        return None;
      }
      if change.statuses.None? {
        return None;
      }
      updates := updates + change.statuses.value;
      assert changes[..c + 1][..c] == changes[..c];
    }
    assert changes[..|changes|] == changes;
    r := Some(updates);
  }

  // ---- the two readings together ----

  function EntriesIn(body: Json): seq<Json> {
    Items(Member(body, ENVELOPE, 1, "entry"))
  }

  function ChangesIn(entry: Json): seq<Json> {
    Items(Member(entry, ENTRY, 0, "changes"))
  }

  /** Change `c` of entry `e` of a body, whether written with names or by position. */
  function ChangeAt(body: Json, e: nat, c: nat): Option<Json> {
    if e < |EntriesIn(body)| && c < |ChangesIn(EntriesIn(body)[e])| then Some(ChangesIn(EntriesIn(body)[e])[c]) else None
  }

  function MessagesIn(change: Json): Option<Json> {
    var value := Member(change, CHANGE, 1, "value");
    if value.Some? then Member(value.value, VALUE, 2, "messages") else None
  }

  /** The change has a messages member, and it is not null. */
  predicate CarriesMessages(change: Json) {
    MessagesIn(change).Some? && !MessagesIn(change).value.Null?
  }

  /** How a change reads: a messages member that is not null always counts. */
  lemma MessagesRead(body: Json, e: nat, c: nat)
    requires ReadEnvelope(body).Some? && ChangeAt(body, e, c).Some?
    ensures
      var entries := ReadEnvelope(body).value.entries;
      && e < |entries| && c < |entries[e].changes|
      && ReadChange(ChangeAt(body, e, c).value) == Some(entries[e].changes[c])
      && (CarriesMessages(ChangeAt(body, e, c).value) ==> entries[e].changes[c].messages.Some?)
  {
    var entry := EntriesIn(body)[e];
    assert ReadEntry(entry) == Some(ReadEnvelope(body).value.entries[e]);
    assert ReadChange(ChangesIn(entry)[c]) == Some(ReadEnvelope(body).value.entries[e].changes[c]);
  }

  /** Whatever else it holds, a body with a non-null messages member is never taken. */
  lemma MessagesAreNeverTaken(body: Json, e: nat, c: nat)
    requires ChangeAt(body, e, c).Some? && CarriesMessages(ChangeAt(body, e, c).value)
    ensures Taken(Some(body)).None?
  {
    if ReadEnvelope(body).Some? {
      MessagesRead(body, e, c);
      assert !EntryStatusOnly(ReadEnvelope(body).value.entries[e]);
    }
  }

  /** Lists found by name are the members of the records. */
  lemma NamedList(v: Json, names: seq<string>, least: nat, key: string)
    requires ListAt(v, key).Some?
    ensures Items(Member(v, names, least, key)) == ListAt(v, key).value
  {
  }

  lemma NamedMessages(change: Json)
    requires MessagesOf(change).Some?
    ensures CarriesMessages(change)
  {
  }

  lemma NamedChange(body: Json, e: nat, c: nat)
    requires e < |OrEmpty(ListAt(body, "entry"))|
    requires c < |OrEmpty(ListAt(OrEmpty(ListAt(body, "entry"))[e], "changes"))|
    ensures ChangeAt(body, e, c) == Some(OrEmpty(ListAt(OrEmpty(ListAt(body, "entry"))[e], "changes"))[c])
  {
    NamedList(body, ENVELOPE, 1, "entry");
    NamedList(EntriesIn(body)[e], ENTRY, 0, "changes");
  }

  /** A body with a template quick reply always gets to the rewriter. */
  lemma ButtonsReachTheRewriter(body: Json)
    requires HasButton(AllMessages(body))
    ensures Taken(Some(body)).None?
  {
    var e := EntryWithMessages(OrEmpty(ListAt(body, "entry")));
    var c := ChangeWithMessages(OrEmpty(ListAt(OrEmpty(ListAt(body, "entry"))[e], "changes")));
    NamedChange(body, e, c);
    NamedMessages(ChangeAt(body, e, c).value);
    MessagesAreNeverTaken(body, e, c);
  }

  lemma {:induction false} EntryWithMessages(entries: seq<Json>) returns (e: nat)
    requires EntriesMessages(entries) != []
    ensures e < |entries| && EntryMessages(entries[e]) != []
  {
    e := |entries| - 1;
    if EntryMessages(entries[e]) == [] {
      e := EntryWithMessages(entries[..e]);
    }
  }

  lemma {:induction false} ChangeWithMessages(changes: seq<Json>) returns (c: nat)
    requires ChangesMessages(changes) != []
    ensures c < |changes| && MessagesOf(changes[c]).Some?
  {
    c := |changes| - 1;
    if MessagesOf(changes[c]).None? {
      c := ChangeWithMessages(changes[..c]);
    }
  }

  /** Some change of the body has a messages member that is not null. */
  ghost predicate AnyMessages(body: Json) {
    exists e: nat, c: nat :: ChangeAt(body, e, c).Some? && CarriesMessages(ChangeAt(body, e, c).value)
  }

  /** Given an envelope of the account whose changes all have statuses and that has
      an update, the body is taken exactly when every messages member is absent or null. */
  lemma TakenExactly(body: Json, entries: seq<Entry>)
    requires ReadEnvelope(body) == Some(Envelope(ACCOUNT, entries))
    requires forall e, c :: 0 <= e < |entries| && 0 <= c < |entries[e].changes| ==> entries[e].changes[c].statuses.Some?
    requires EntriesUpdates(entries) != []
    ensures Taken(Some(body)).Some? <==> !AnyMessages(body)
  {
    if e: nat, c: nat :| ChangeAt(body, e, c).Some? && CarriesMessages(ChangeAt(body, e, c).value) {
      MessagesAreNeverTaken(body, e, c);
    } else {
      forall e | 0 <= e < |entries|
        ensures EntryStatusOnly(entries[e])
      {
        forall c | 0 <= c < |entries[e].changes|
          ensures StatusOnly(entries[e].changes[c])
        {
          NoMessagesRead(body, entries, e, c);
        }
      }
    }
  }

  lemma NoMessagesRead(body: Json, entries: seq<Entry>, e: nat, c: nat)
    requires ReadEnvelope(body) == Some(Envelope(ACCOUNT, entries)) && !AnyMessages(body)
    requires e < |entries| && c < |entries[e].changes|
    ensures entries[e].changes[c].messages.None?
  {
    var entry := EntriesIn(body)[e];
    assert ReadEntry(entry) == Some(entries[e]);
    var change := ChangesIn(entry)[c];
    assert ReadChange(change) == Some(entries[e].changes[c]);
    assert ChangeAt(body, e, c) == Some(change) && !CarriesMessages(change);
  }

  function Record(key: string, value: Json): Json {
    Obj(map[key := value])
  }

  function DeliveryUpdate(id: string, status: string): Json {
    Obj(map["id" := Str(id), "status" := Str(status)])
  }

  /** A change with one update and `"messages": null`. */
  function NullMessagesChange(id: string, status: string): Json {
    Record("value", Obj(map["statuses" := Arr([DeliveryUpdate(id, status)]), "messages" := Null]))
  }

  function NullMessagesBody(id: string, status: string): Json {
    Obj(map["object" := Str(ACCOUNT), "entry" := Arr([Record("changes", Arr([NullMessagesChange(id, status)]))])])
  }

  /** A body with a messages member is taken after all when the member is null. */
  lemma NullMessagesAreTaken(id: string, status: string)
    ensures Taken(Some(NullMessagesBody(id, status))) == Some([Update(id, status, None, [])])
  {
    NullMessagesBodyReads(id, status);
    OneUpdate(NullMessagesRead(id, status), Update(id, status, None, []));
  }

  function NullMessagesRead(id: string, status: string): Change {
    Change(Some([Update(id, status, None, [])]), None)
  }

  lemma NullMessagesBodyReads(id: string, status: string)
    ensures ReadEnvelope(NullMessagesBody(id, status)) == Some(Envelope(ACCOUNT, [Entry([NullMessagesRead(id, status)])]))
  {
    NullMessagesChangeReads(id, status);
    ReadAllOne(NullMessagesChange(id, status), ReadChange);
    ReadAllOne(Record("changes", Arr([NullMessagesChange(id, status)])), ReadEntry);
  }

  lemma NullMessagesChangeReads(id: string, status: string)
    ensures ReadChange(NullMessagesChange(id, status)) == Some(NullMessagesRead(id, status))
  {
    assert ReadUpdate(DeliveryUpdate(id, status)) == Some(Update(id, status, None, []));
    ReadAllOne(DeliveryUpdate(id, status), ReadUpdate);
  }

  lemma OneUpdate(change: Change, update: Update)
    requires change == Change(Some([update]), None)
    ensures EntriesUpdates([Entry([change])]) == [update] && AllStatusOnly([Entry([change])])
  {
    assert [change][..0] == [];
    assert ChangesUpdates([]) + [update] == [update];
    assert ChangesUpdates([change]) == [update];
    assert [Entry([change])][..0] == [];
    assert EntriesUpdates([]) + [update] == [update];
  }

  lemma ReadAllOne<T>(item: Json, read: Json -> Option<T>)
    requires read(item).Some?
    ensures ReadAll([item], read) == Some([read(item).value])
  {
    assert [item][..0] == [];
    assert ReadAll<T>([], read) == Some([]);
    var none: seq<T> := [];
    assert none + [read(item).value] == [read(item).value];
  }
}
