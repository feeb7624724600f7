/** The status-only answer by position: every update once, in document order; and concrete bodies in both
    forms a record may be written in. */
module StatusOrder {
  import opened Wrappers
  import opened Webhook
  import opened StatusUpdates

  // ---- positions ----

  function StatusesOf(change: Change): seq<Update> {
    if change.statuses.Some? then change.statuses.value else []
  }

  /** Updates in some changes, counted. */
  function CountChanges(changes: seq<Change>): nat {
    if changes == [] then 0 else |StatusesOf(changes[0])| + CountChanges(changes[1..])
  }

  function CountEntries(entries: seq<Entry>): nat {
    if entries == [] then 0 else CountChanges(entries[0].changes) + CountEntries(entries[1..])
  }

  /** `k` is an update of change `c` of entry `e`. */
  predicate IsUpdate(entries: seq<Entry>, e: nat, c: nat, k: nat) {
    e < |entries| && c < |entries[e].changes| && k < |StatusesOf(entries[e].changes[c])|
  }

  /** How many updates come before update `k` of change `c` of entry `e`. */
  function Position(entries: seq<Entry>, e: nat, c: nat, k: nat): nat
    requires IsUpdate(entries, e, c, k)
  {
    CountEntries(entries[..e]) + CountChanges(entries[e].changes[..c]) + k
  }

  lemma {:induction false} CountChangesMore(changes: seq<Change>, c: nat)
    requires c < |changes|
    ensures CountChanges(changes[..c + 1]) == CountChanges(changes[..c]) + |StatusesOf(changes[c])|
  {
    if c == 0 {
      assert changes[..1][1..] == [];
    } else {
      CountChangesMore(changes[1..], c - 1);
      assert changes[..c + 1][1..] == changes[1..][..c] && changes[..c][1..] == changes[1..][..c - 1];
    }
  }

  lemma {:induction false} CountEntriesMore(entries: seq<Entry>, e: nat)
    requires e < |entries|
    ensures CountEntries(entries[..e + 1]) == CountEntries(entries[..e]) + CountChanges(entries[e].changes)
  {
    if e == 0 {
      assert entries[..1][1..] == [];
    } else {
      CountEntriesMore(entries[1..], e - 1);
      assert entries[..e + 1][1..] == entries[1..][..e] && entries[..e][1..] == entries[1..][..e - 1];
    }
  }

  // ---- the answer ----

  lemma {:induction false} ChangesUpdatesAt(changes: seq<Change>, c: nat, k: nat)
    requires c < |changes| && k < |StatusesOf(changes[c])|
    ensures |ChangesUpdates(changes)| == CountChanges(changes)
    ensures CountChanges(changes[..c]) + k < |ChangesUpdates(changes)|
    ensures ChangesUpdates(changes)[CountChanges(changes[..c]) + k] == StatusesOf(changes[c])[k]
  {
    var n := |changes| - 1;
    var before := changes[..n];
    CountChangesMore(changes, n);
    assert changes[..n + 1] == changes;
    ChangesUpdatesCount(before);
    if c < n {
      ChangesUpdatesAt(before, c, k);
      assert before[..c] == changes[..c];
    }
  }

  lemma {:induction false} ChangesUpdatesCount(changes: seq<Change>)
    ensures |ChangesUpdates(changes)| == CountChanges(changes)
  {
    if changes != [] {
      var n := |changes| - 1;
      ChangesUpdatesCount(changes[..n]);
      CountChangesMore(changes, n);
      assert changes[..n + 1] == changes;
    }
  }

  lemma {:induction false} EntriesUpdatesCount(entries: seq<Entry>)
    ensures |EntriesUpdates(entries)| == CountEntries(entries)
  {
    if entries != [] {
      var n := |entries| - 1;
      EntriesUpdatesCount(entries[..n]);
      ChangesUpdatesCount(entries[n].changes);
      CountEntriesMore(entries, n);
      assert entries[..n + 1] == entries;
    }
  }

  lemma PositionInPrefix(entries: seq<Entry>, n: nat, e: nat, c: nat, k: nat)
    requires e < n <= |entries| && IsUpdate(entries, e, c, k)
    ensures IsUpdate(entries[..n], e, c, k) && Position(entries[..n], e, c, k) == Position(entries, e, c, k)
  {
    assert entries[..n][..e] == entries[..e];
  }

  /** Nothing is added and nothing reordered: each update is at its position. */
  lemma {:induction false} UpdateIsAtPosition(entries: seq<Entry>, e: nat, c: nat, k: nat)
    requires IsUpdate(entries, e, c, k)
    ensures Position(entries, e, c, k) < |EntriesUpdates(entries)| == CountEntries(entries)
    ensures EntriesUpdates(entries)[Position(entries, e, c, k)] == StatusesOf(entries[e].changes[c])[k]
  {
    var n := |entries| - 1;
    var before := entries[..n];
    EntriesUpdatesCount(entries);
    EntriesUpdatesCount(before);
    if e < n {
      UpdateIsAtPosition(before, e, c, k);
      PositionInPrefix(entries, n, e, c, k);
    } else {
      ChangesUpdatesAt(entries[n].changes, c, k);
    }
  }

  lemma {:induction false} ChangeAtPosition(changes: seq<Change>, i: nat) returns (c: nat, k: nat)
    requires i < CountChanges(changes)
    ensures c < |changes| && k < |StatusesOf(changes[c])| && i == CountChanges(changes[..c]) + k
  {
    if i < |StatusesOf(changes[0])| {
      c, k := 0, i;
    } else {
      c, k := ChangeAtPosition(changes[1..], i - |StatusesOf(changes[0])|);
      assert changes[..c + 1][1..] == changes[1..][..c];
      c := c + 1;
    }
  }

  /** Nothing is lost either: every place of the answer is the position of an update. */
  lemma {:induction false} PositionIsOfUpdate(entries: seq<Entry>, i: nat) returns (e: nat, c: nat, k: nat)
    requires i < CountEntries(entries)
    ensures IsUpdate(entries, e, c, k) && i == Position(entries, e, c, k)
  {
    var first := CountChanges(entries[0].changes);
    if i < first {
      e := 0;
      c, k := ChangeAtPosition(entries[0].changes, i);
    } else {
      e, c, k := PositionIsOfUpdate(entries[1..], i - first);
      assert entries[..e + 1][1..] == entries[1..][..e];
      e := e + 1;
    }
  }

  /** Earlier in the document is earlier in the answer. */
  predicate Earlier(e: nat, c: nat, k: nat, e': nat, c': nat, k': nat) {
    e < e' || (e == e' && (c < c' || (c == c' && k < k')))
  }

  lemma {:induction false} CountChangesGrows(changes: seq<Change>, c: nat, c': nat)
    requires c <= c' <= |changes|
    ensures CountChanges(changes[..c]) <= CountChanges(changes[..c'])
  {
    if c < c' {
      CountChangesGrows(changes, c, c' - 1);
      CountChangesMore(changes, c' - 1);
    }
  }

  lemma {:induction false} CountEntriesGrows(entries: seq<Entry>, e: nat, e': nat)
    requires e <= e' <= |entries|
    ensures CountEntries(entries[..e]) <= CountEntries(entries[..e'])
  {
    if e < e' {
      CountEntriesGrows(entries, e, e' - 1);
      CountEntriesMore(entries, e' - 1);
    }
  }

  lemma PositionsFollowDocument(entries: seq<Entry>, e: nat, c: nat, k: nat, e': nat, c': nat, k': nat)
    requires IsUpdate(entries, e, c, k) && IsUpdate(entries, e', c', k') && Earlier(e, c, k, e', c', k')
    ensures Position(entries, e, c, k) < Position(entries, e', c', k')
  {
    var changes := entries[e].changes;
    CountChangesMore(changes, c);
    if e < e' {
      CountChangesGrows(changes, c + 1, |changes|);
      assert changes[..|changes|] == changes;
      CountEntriesMore(entries, e);
      CountEntriesGrows(entries, e + 1, e');
    } else if c < c' {
      CountChangesGrows(changes, c + 1, c');
    }
  }

  /** A body that is taken is answered with update `k` of change `c` of entry `e` at exactly its position. */
  lemma TakenInOrder(body: Json, e: nat, c: nat, k: nat)
    requires Taken(Some(body)).Some? && IsUpdate(ReadEnvelope(body).value.entries, e, c, k)
    ensures
      var entries, r := ReadEnvelope(body).value.entries, Taken(Some(body)).value;
      && |r| == CountEntries(entries) && Position(entries, e, c, k) < |r|
      && entries[e].changes[c].statuses.Some?
      && r[Position(entries, e, c, k)] == entries[e].changes[c].statuses.value[k]
  {
    UpdateIsAtPosition(ReadEnvelope(body).value.entries, e, c, k);
  }

  /** Some change of some entry holds an update. */
  ghost predicate SomeUpdate(entries: seq<Entry>) {
    exists e: nat, c: nat, k: nat :: IsUpdate(entries, e, c, k)
  }

  lemma SomeUpdateExactly(entries: seq<Entry>)
    ensures SomeUpdate(entries) <==> EntriesUpdates(entries) != []
  {
    EntriesUpdatesCount(entries);
    if CountEntries(entries) > 0 {
      var e, c, k := PositionIsOfUpdate(entries, 0);
    }
    if e: nat, c: nat, k: nat :| IsUpdate(entries, e, c, k) {
      UpdateIsAtPosition(entries, e, c, k);
    }
  }

  predicate OnlyStatuses(change: Change) {
    change.statuses.Some? && change.messages.None?
  }

  /** A body that reads as the account's envelope is taken exactly when each change has statuses and no messages
      and at least one of them an update. */
  lemma TakenByChanges(body: Json, entries: seq<Entry>)
    requires ReadEnvelope(body) == Some(Envelope("whatsapp_business_account", entries))
    ensures Taken(Some(body)).Some? <==>
              SomeUpdate(entries) &&
              forall e, c :: 0 <= e < |entries| && 0 <= c < |entries[e].changes| ==> OnlyStatuses(entries[e].changes[c])
  {
    SomeUpdateExactly(entries);
    AllStatusOnlyExactly(entries);
  }

  lemma AllStatusOnlyExactly(entries: seq<Entry>)
    ensures AllStatusOnly(entries) <==>
              forall e, c :: 0 <= e < |entries| && 0 <= c < |entries[e].changes| ==> OnlyStatuses(entries[e].changes[c])
  {
    if AllStatusOnly(entries) {
      forall e, c | 0 <= e < |entries| && 0 <= c < |entries[e].changes|
        ensures OnlyStatuses(entries[e].changes[c])
      {
        assert EntryStatusOnly(entries[e]) && StatusOnly(entries[e].changes[c]);
      }
    }
  }

  // ---- whose body it is ----

  /** A body without the account's name, in either form, is never taken. */
  lemma OtherAccountsAreLeft(body: Json)
    requires body.Obj? ==> "object" !in body.fields || body.fields["object"] != Str("whatsapp_business_account")
    requires body.Arr? ==> body.items == [] || body.items[0] != Str("whatsapp_business_account")
    ensures Taken(Some(body)).None?
  {
    if body.Arr? && 1 <= |body.items| <= 2 {
      FirstMember(ENVELOPE, body.items);
    }
  }

  lemma {:induction false} FirstMember(names: seq<string>, items: seq<Json>)
    requires 1 <= |items| <= |names| && forall i :: 0 < i < |items| ==> names[i] != names[0]
    ensures names[0] in Positional(names, items) && Positional(names, items)[names[0]] == items[0]
  {
    if |items| > 1 {
      FirstMember(names, items[..|items| - 1]);
    }
  }

  // ---- a whole update, in both forms ----

  function NamedError(code: nat, title: string, text: string): Json {
    Obj(map["code" := Integer(code), "title" := Str(title), "message" := Str(text)])
  }

  function NamedUpdate(id: string, status: string, callback: string, error: Json): Json {
    Obj(map["id" := Str(id), "status" := Str(status), "biz_opaque_callback_data" := Str(callback), "errors" := Arr([error])])
  }

  lemma NamedErrorReads(code: nat, title: string, text: string)
    requires code < TWO64
    ensures ReadError(NamedError(code, title, text)) == Some(StatusError(Some(code), Some(title), Some(text)))
  {
  }

  /** Every member of an update ends up in its own field. */
  lemma NamedUpdateReads(id: string, status: string, callback: string, code: nat, title: string, text: string)
    requires code < TWO64
    ensures ReadUpdate(NamedUpdate(id, status, callback, NamedError(code, title, text)))
            == Some(Update(id, status, Some(callback), [StatusError(Some(code), Some(title), Some(text))]))
  {
    NamedErrorReads(code, title, text);
    ReadAllOne(NamedError(code, title, text), ReadError);
  }

  lemma PositionalTwo(names: seq<string>, a: Json, b: Json)
    requires |names| >= 2 && names[0] != names[1]
    ensures Positional(names, [a, b]) == map[names[0] := a, names[1] := b]
  {
    PositionalOne(names, a);
    assert [a, b][..1] == [a];
  }

  lemma PositionalOne(names: seq<string>, a: Json)
    requires |names| >= 1
    ensures Positional(names, [a]) == map[names[0] := a]
  {
    assert [a][..0] == [];
  }

  /** By position, id and status come first, and the rest may be left out. */
  lemma PositionalUpdateReads(id: string, status: string)
    ensures ReadUpdate(Arr([Str(id), Str(status)])) == Some(Update(id, status, None, []))
  {
    PositionalTwo(["id", "status", "biz_opaque_callback_data", "errors"], Str(id), Str(status));
  }

  lemma {:induction false} MoreMembers(names: seq<string>, items: seq<Json>, item: Json)
    requires |items| < |names|
    ensures Positional(names, items + [item]) == Positional(names, items)[names[|items|] := item]
  {
    assert (items + [item])[..|items|] == items;
  }

  const UPDATE := ["id", "status", "biz_opaque_callback_data", "errors"]

  lemma FourMembers(a: Json, b: Json, c: Json, d: Json)
    ensures Positional(UPDATE, [a, b, c, d]) == map["id" := a, "status" := b, "biz_opaque_callback_data" := c, "errors" := d]
  {
    PositionalTwo(UPDATE, a, b);
    MoreMembers(UPDATE, [a, b], c);
    MoreMembers(UPDATE, [a, b, c], d);
    assert [a, b] + [c] == [a, b, c] && [a, b, c] + [d] == [a, b, c, d];
  }

  /** A whole update by position reads as the same update by name. */
  lemma WholePositionalUpdateReads(id: string, status: string, callback: string, error: Json)
    ensures ReadUpdate(Arr([Str(id), Str(status), Str(callback), Arr([error])])) == ReadUpdate(NamedUpdate(id, status, callback, error))
  {
    FourMembers(Str(id), Str(status), Str(callback), Arr([error]));
    assert NamedUpdate(id, status, callback, error).fields
        == map["id" := Str(id), "status" := Str(status), "biz_opaque_callback_data" := Str(callback), "errors" := Arr([error])];
  }

  /** An array with more members than the record has is refused, and so is one without the required ones. */
  lemma WrongLengthsAreRefused(items: seq<Json>)
    requires |items| < 2 || |items| > 4
    ensures ReadUpdate(Arr(items)).None?
  {
  }

  /** A list that may be missing may not be null. */
  lemma NullListIsRefused(account: string)
    ensures ReadEnvelope(Obj(map["object" := Str(account), "entry" := Null])).None?
    ensures ReadEnvelope(Obj(map["object" := Str(account)])) == Some(Envelope(account, []))
  {
  }

  /** An error code is an unsigned number of 64 bits. */
  lemma CodesAre(v: Json)
    ensures Unsigned(v).Some? <==> v.Integer? && 0 <= v.whole <= 18_446_744_073_709_551_615
    ensures Unsigned(v).Some? ==> Integer(Unsigned(v).value) == v
  {
  }

  // ---- two entries ----

  function StatusChange(update: Json): Json {
    Obj(map["value" := Obj(map["statuses" := Arr([update])])])
  }

  function StatusEntry(update: Json): Json {
    Obj(map["changes" := Arr([StatusChange(update)])])
  }

  function TwoEntries(a: Json, b: Json): Json {
    Obj(map["object" := Str("whatsapp_business_account"), "entry" := Arr([StatusEntry(a), StatusEntry(b)])])
  }

  function OneChange(update: Update): Entry {
    Entry([Change(Some([update]), None)])
  }

  lemma StatusEntryReads(update: Json, read: Update)
    requires ReadUpdate(update) == Some(read)
    ensures ReadEntry(StatusEntry(update)) == Some(OneChange(read))
  {
    ReadAllOne(update, ReadUpdate);
    assert ReadChange(StatusChange(update)) == Some(Change(Some([read]), None));
    ReadAllOne(StatusChange(update), ReadChange);
  }

  lemma ReadAllTwo<T>(a: Json, b: Json, read: Json -> Option<T>)
    requires read(a).Some? && read(b).Some?
    ensures ReadAll([a, b], read) == Some([read(a).value, read(b).value])
  {
    ReadAllOne(a, read);
    assert [a, b][..1] == [a];
    assert [read(a).value] + [read(b).value] == [read(a).value, read(b).value];
  }

  lemma TwoEntriesRead(a: Json, b: Json, x: Update, y: Update)
    requires ReadUpdate(a) == Some(x) && ReadUpdate(b) == Some(y)
    ensures ReadEnvelope(TwoEntries(a, b)) == Some(Envelope("whatsapp_business_account", [OneChange(x), OneChange(y)]))
  {
    StatusEntryReads(a, x);
    StatusEntryReads(b, y);
    ReadAllTwo(StatusEntry(a), StatusEntry(b), ReadEntry);
  }

  /** A body with two entries is answered with the updates of both, the first one's first. */
  lemma BothEntriesAreTaken(a: Json, b: Json, x: Update, y: Update)
    requires ReadUpdate(a) == Some(x) && ReadUpdate(b) == Some(y)
    ensures Taken(Some(TwoEntries(a, b))) == Some([x, y])
  {
    TwoEntriesRead(a, b, x, y);
    TwoEntriesUpdates(x, y);
  }

  lemma OneChangeUpdates(x: Update)
    ensures ChangesUpdates(OneChange(x).changes) == [x]
  {
    var changes := OneChange(x).changes;
    assert changes[..0] == [];
    var none: seq<Update> := [];
    assert none + [x] == [x];
  }

  lemma TwoEntriesUpdates(x: Update, y: Update)
    ensures EntriesUpdates([OneChange(x), OneChange(y)]) == [x, y] && AllStatusOnly([OneChange(x), OneChange(y)])
  {
    OneChangeUpdates(x);
    OneChangeUpdates(y);
    var entries := [OneChange(x), OneChange(y)];
    assert entries[..1] == [OneChange(x)] && entries[..1][..0] == [];
    assert EntriesUpdates(entries[..1]) == [x] by {
      var none: seq<Update> := [];
      assert none + [x] == [x];
    }
    assert [x] + [y] == [x, y];
  }
}
