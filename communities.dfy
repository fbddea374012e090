/** The data side of the community chat page (`pages/Communities/Index.tsx`): merging the
    messages the server sent with the ones received live, upserting and removing live messages,
    the guards of "mark as read" and "send", the seller switcher lists and the scroll anchors.

    Timestamps are integers (milliseconds); the React state hooks become values passed in and
    returned. A JavaScript `Map` is a `Table`: its keys in insertion order and its entries. */
module Communities {
  import opened Wrappers
  import Text
  import Sorting

  datatype Message = Message(id: string, communityId: string, content: string, createdAt: int, updatedAt: int)

  function MessageId(m: Message): string { m.id }
  function CreatedAt(m: Message): int { m.createdAt }

  /** No two messages share an id. */
  predicate UniqueIds(ms: seq<Message>) {
    Text.KeysUnique(ms, MessageId)
  }

  /** The ids of the messages in `ms`. */
  function Ids(ms: seq<Message>): set<string> {
    Text.Keys(ms, MessageId)
  }

  // ---------------------------------------------------------------------------------------------
  // The message map of `allMessages`

  /** A JavaScript `Map<string, Message>`: `order` lists its keys in insertion order. */
  datatype Table = Table(order: seq<string>, entries: map<string, Message>)

  const EmptyTable := Table([], map[])

  predicate ValidTable(t: Table) {
    && Text.Distinct(t.order)
    && (forall k :: k in t.entries ==> k in t.order)
    && (forall i :: 0 <= i < |t.order| ==> t.order[i] in t.entries)
  }

  /** Every entry is stored under its own id, and no deleted id is a key. */
  predicate KeyedBy(t: Table, deleted: set<string>) {
    forall k :: k in t.entries ==> t.entries[k].id == k && k !in deleted
  }

  /** `Map.prototype.get`. */
  function Lookup(t: Table, k: string): Option<Message> {
    if k in t.entries then Some(t.entries[k]) else None
  }

  /** `Map.prototype.set`: a new key goes last; an existing key keeps its place. */
  function Put(t: Table, k: string, v: Message): (r: Table)
    requires ValidTable(t)
    ensures ValidTable(r)
    ensures Lookup(r, k) == Some(v)
    ensures forall j :: j != k ==> Lookup(r, j) == Lookup(t, j)
  {
    if k in t.entries then Table(t.order, t.entries[k := v]) else Table(t.order + [k], t.entries[k := v])
  }

  /** `[...map.values()]`: the values in the insertion order of their keys. */
  function Values(t: Table): seq<Message>
    requires ValidTable(t)
  {
    seq(|t.order|, i requires 0 <= i < |t.order| => t.entries[t.order[i]])
  }

  /** The first `forEach`: each page message whose id is not deleted is set under its id. */
  function PageFold(page: seq<Message>, deleted: set<string>): (r: Table)
    ensures ValidTable(r) && KeyedBy(r, deleted)
    decreases |page|
  {
    if |page| == 0 then EmptyTable
    else
      var t := PageFold(page[..|page| - 1], deleted);
      var m := page[|page| - 1];
      if m.id in deleted then t else Put(t, m.id, m)
  }

  /** The second `forEach`: a live message that is not deleted is set when the map holds no
      message with its id or holds one updated strictly earlier. */
  function LocalFold(t0: Table, local: seq<Message>, deleted: set<string>): (r: Table)
    requires ValidTable(t0) && KeyedBy(t0, deleted)
    ensures ValidTable(r) && KeyedBy(r, deleted)
    decreases |local|
  {
    if |local| == 0 then t0
    else
      var t := LocalFold(t0, local[..|local| - 1], deleted);
      var m := local[|local| - 1];
      if m.id !in deleted && (m.id !in t.entries || t.entries[m.id].updatedAt < m.updatedAt) then Put(t, m.id, m)
      else t
  }

  function MergedTable(page: seq<Message>, local: seq<Message>, deleted: set<string>): (r: Table)
    ensures ValidTable(r) && KeyedBy(r, deleted)
  {
    LocalFold(PageFold(page, deleted), local, deleted)
  }

  /** `allMessages`: the merged messages, in ascending order of creation time. */
  function Merge(page: seq<Message>, local: seq<Message>, deleted: set<string>): (r: seq<Message>)
    ensures Sorting.SortedBy(r, CreatedAt, Sorting.IntLe)
    ensures multiset(r) == multiset(Values(MergedTable(page, local, deleted)))
  {
    Sorting.IntLeTotalPreorder();
    Sorting.SortBy(Values(MergedTable(page, local, deleted)), CreatedAt, Sorting.IntLe)
  }

  /** The `useMemo` body of `allMessages`, loop by loop. */
  method AllMessages(page: seq<Message>, local: seq<Message>, deleted: set<string>) returns (r: seq<Message>)
    ensures r == Merge(page, local, deleted)
  {
    var table := EmptyTable;
    for i := 0 to |page|
      invariant table == PageFold(page[..i], deleted)
    {
      var m := page[i];
      assert page[..i + 1][..i] == page[..i];
      if m.id !in deleted {
        table := Put(table, m.id, m);
      }
    }
    assert page[..|page|] == page;
    var afterPage := table;
    for i := 0 to |local|
      invariant table == LocalFold(afterPage, local[..i], deleted)
    {
      var m := local[i];
      assert local[..i + 1][..i] == local[..i];
      if m.id !in deleted {
        var existing := Lookup(table, m.id);
        if existing.None? || existing.value.updatedAt < m.updatedAt {
          table := Put(table, m.id, m);
        }
      }
    }
    assert local[..|local|] == local;
    Sorting.IntLeTotalPreorder();
    r := Sorting.SortBy(Values(table), CreatedAt, Sorting.IntLe);
  }

  /** The last message in `ms` with id `k`, if any. */
  function LastWithId(ms: seq<Message>, k: string): (r: Option<Message>)
    ensures r.Some? ==> r.value in ms && r.value.id == k
    ensures r.None? <==> k !in Ids(ms)
    decreases |ms|
  {
    if |ms| == 0 then None
    else if ms[|ms| - 1].id == k then Some(ms[|ms| - 1])
    else
      Text.KeysOfSnoc(ms, MessageId);
      LastWithId(ms[..|ms| - 1], k)
  }

  /** The copy of a message the merge keeps, given the server's copy `p` and the live copy `l`:
      the live one only when there is no server copy or the live one was updated strictly later. */
  function Winner(p: Option<Message>, l: Option<Message>): (r: Option<Message>)
    ensures r.None? <==> p.None? && l.None?
    ensures p.Some? && l.Some? ==> (r == l <==> p.value.updatedAt < l.value.updatedAt || p == l)
  {
    if l.Some? && (p.None? || p.value.updatedAt < l.value.updatedAt) then l else p
  }

  lemma {:induction false} PageFoldLookup(page: seq<Message>, deleted: set<string>, k: string)
    ensures Lookup(PageFold(page, deleted), k) == if k in deleted then None else LastWithId(page, k)
    decreases |page|
  {
    if |page| > 0 {
      PageFoldLookup(page[..|page| - 1], deleted, k);
    }
  }

  lemma {:induction false} LocalFoldLookup(t0: Table, local: seq<Message>, deleted: set<string>, k: string)
    requires ValidTable(t0) && KeyedBy(t0, deleted) && UniqueIds(local)
    ensures Lookup(LocalFold(t0, local, deleted), k)
         == if k in deleted then Lookup(t0, k) else Winner(Lookup(t0, k), LastWithId(local, k))
    decreases |local|
  {
    if |local| > 0 {
      var p := local[..|local| - 1];
      var m := local[|local| - 1];
      assert UniqueIds(p) by {
        forall i, j | 0 <= i < j < |p| ensures p[i].id != p[j].id {
          assert MessageId(local[i]) != MessageId(local[j]);
        }
      }
      LocalFoldLookup(t0, p, deleted, k);
      if m.id == k {
        assert k !in Ids(p) by {
          forall i | 0 <= i < |p| ensures p[i].id != k {
            assert MessageId(local[i]) != MessageId(local[|local| - 1]);
          }
        }
      }
    }
  }

  lemma {:induction false} PageFoldKeys(page: seq<Message>, deleted: set<string>)
    ensures PageFold(page, deleted).entries.Keys == Ids(page) - deleted
    decreases |page|
  {
    if |page| > 0 {
      PageFoldKeys(page[..|page| - 1], deleted);
      Text.KeysOfSnoc(page, MessageId);
    }
  }

  lemma {:induction false} LocalFoldKeys(t0: Table, local: seq<Message>, deleted: set<string>)
    requires ValidTable(t0) && KeyedBy(t0, deleted)
    ensures LocalFold(t0, local, deleted).entries.Keys == t0.entries.Keys + (Ids(local) - deleted)
    decreases |local|
  {
    if |local| > 0 {
      LocalFoldKeys(t0, local[..|local| - 1], deleted);
      Text.KeysOfSnoc(local, MessageId);
    }
  }

  /** The values of a table keyed by id carry distinct ids, exactly its keys, each stored under
      its own id. */
  lemma ValuesKeyedBy(t: Table, deleted: set<string>)
    requires ValidTable(t) && KeyedBy(t, deleted)
    ensures UniqueIds(Values(t))
    ensures Ids(Values(t)) == t.entries.Keys
    ensures forall m :: m in Values(t) ==> Lookup(t, m.id) == Some(m)
  {
    var v := Values(t);
    forall i, j | 0 <= i < j < |v| ensures MessageId(v[i]) != MessageId(v[j]) {
      assert t.order[i] != t.order[j];
    }
    forall k | k in t.entries ensures k in Ids(v) {
      var i :| 0 <= i < |t.order| && t.order[i] == k;
      assert MessageId(v[i]) == k;
    }
  }

  /** No message whose id is deleted survives the merge. */
  lemma MergeExcludesDeleted(page: seq<Message>, local: seq<Message>, deleted: set<string>)
    ensures forall m :: m in Merge(page, local, deleted) ==> m.id !in deleted
  {
    var t := MergedTable(page, local, deleted);
    var r := Merge(page, local, deleted);
    forall m | m in r ensures m.id !in deleted {
      assert m in multiset(Values(t));
      var i :| 0 <= i < |Values(t)| && Values(t)[i] == m;
    }
  }

  /** The merge holds one message per id, and its ids are exactly the ids of the server's and the
      live messages that are not deleted. */
  lemma MergeIds(page: seq<Message>, local: seq<Message>, deleted: set<string>)
    ensures UniqueIds(Merge(page, local, deleted))
    ensures Ids(Merge(page, local, deleted)) == (Ids(page) + Ids(local)) - deleted
  {
    var t := MergedTable(page, local, deleted);
    var r := Merge(page, local, deleted);
    ValuesKeyedBy(t, deleted);
    Sorting.PermutationKeepsKeysUnique(Values(t), r, MessageId);
    Sorting.PermutationKeys(Values(t), r, MessageId);
    PageFoldKeys(page, deleted);
    LocalFoldKeys(PageFold(page, deleted), local, deleted);
  }

  /** When the live messages have distinct ids, each merged message is the copy `Winner` picks
      from the server's last copy with its id and the live copy with its id. */
  lemma MergeKeepsNewer(page: seq<Message>, local: seq<Message>, deleted: set<string>)
    requires UniqueIds(local)
    ensures forall m :: m in Merge(page, local, deleted) ==>
              Some(m) == Winner(LastWithId(page, m.id), LastWithId(local, m.id))
  {
    var t := MergedTable(page, local, deleted);
    var r := Merge(page, local, deleted);
    ValuesKeyedBy(t, deleted);
    forall m | m in r ensures Some(m) == Winner(LastWithId(page, m.id), LastWithId(local, m.id)) {
      assert m in multiset(Values(t));
      assert Lookup(t, m.id) == Some(m);
      LocalFoldLookup(PageFold(page, deleted), local, deleted, m.id);
      PageFoldLookup(page, deleted, m.id);
    }
  }

  // ---------------------------------------------------------------------------------------------
  // Live updates: `insertOrUpdateMessage` and `removeMessage`

  /** `prev[communityId] ?? []`. */
  function ListOf(lists: map<string, seq<Message>>, communityId: string): seq<Message> {
    if communityId in lists then lists[communityId] else []
  }

  /** `findIndex` by id: the first position holding a message with id `id`. */
  function IndexOfId(ms: seq<Message>, id: string): (r: Option<nat>)
    ensures r.Some? ==> r.value < |ms| && ms[r.value].id == id
    ensures r.Some? ==> forall j :: 0 <= j < r.value ==> ms[j].id != id
    ensures r.None? ==> forall j :: 0 <= j < |ms| ==> ms[j].id != id
    decreases |ms|
  {
    if |ms| == 0 then None
    else if ms[0].id == id then Some(0)
    else
      match IndexOfId(ms[1..], id)
      case None => None
      case Some(i) => Some(i + 1)
  }

  /** The loop of `findIndex`: -1 when no message has the id. */
  method FindIndexById(ms: seq<Message>, id: string) returns (idx: int)
    ensures idx == match IndexOfId(ms, id) { case None => -1 case Some(i) => i }
  {
    idx := 0;
    while idx < |ms|
      invariant 0 <= idx <= |ms|
      invariant forall j :: 0 <= j < idx ==> ms[j].id != id
    {
      if ms[idx].id == id {
        return;
      }
      idx := idx + 1;
    }
    idx := -1;
  }

  /** The list after upserting `m`: it replaces the first message with its id, in place, or is
      appended when there is none. */
  function Upserted(ms: seq<Message>, m: Message): (r: seq<Message>)
    ensures m in r
    ensures |r| == if m.id in Ids(ms) then |ms| else |ms| + 1
    ensures forall j :: 0 <= j < |ms| && ms[j].id != m.id ==> r[j] == ms[j]
    ensures m.id !in Ids(ms) ==> r[..|ms|] == ms
    ensures m.id in Ids(ms) ==> IndexOfId(ms, m.id).Some? && r[IndexOfId(ms, m.id).value] == m
  {
    match IndexOfId(ms, m.id)
    case Some(i) =>
      assert ms[i := m][i] == m;
      ms[i := m]
    case None => ms + [m]
  }

  /** `insertOrUpdateMessage`'s state update: a copy of the message's community list, updated at
      the found index or pushed onto, stored back under that community. */
  method InsertOrUpdate(prev: map<string, seq<Message>>, message: Message) returns (next: map<string, seq<Message>>)
    ensures next.Keys == prev.Keys + {message.communityId}
    ensures next[message.communityId] == Upserted(ListOf(prev, message.communityId), message)
    ensures forall c :: c in prev && c != message.communityId ==> next[c] == prev[c]
  {
    var communityMsgs := ListOf(prev, message.communityId);
    var idx := FindIndexById(communityMsgs, message.id);
    if idx != -1 {
      communityMsgs := communityMsgs[idx := message];
    } else {
      communityMsgs := communityMsgs + [message];
    }
    next := prev[message.communityId := communityMsgs];
  }

  /** Upserting keeps a list's ids distinct, and the upserted message is the list's copy of its id. */
  lemma UpsertedKeepsIdsUnique(ms: seq<Message>, m: Message)
    requires UniqueIds(ms)
    ensures UniqueIds(Upserted(ms, m))
    ensures LastWithId(Upserted(ms, m), m.id) == Some(m)
  {
    var r := Upserted(ms, m);
    match IndexOfId(ms, m.id)
    case Some(i) =>
      forall a, b | 0 <= a < b < |r| ensures MessageId(r[a]) != MessageId(r[b]) {
        assert MessageId(r[a]) == MessageId(ms[a]) && MessageId(r[b]) == MessageId(ms[b]);
      }
      UniqueLast(r, m);
    case None =>
      forall a, b | 0 <= a < b < |r| ensures MessageId(r[a]) != MessageId(r[b]) {
        if b == |ms| {
          assert r[a] == ms[a];
        } else {
          assert r[a] == ms[a] && r[b] == ms[b];
        }
      }
      UniqueLast(r, m);
  }

  /** In a list with distinct ids, a message is the last (and only) one with its id. */
  lemma UniqueLast(ms: seq<Message>, m: Message)
    requires UniqueIds(ms) && m in ms
    ensures LastWithId(ms, m.id) == Some(m)
  {
    var x := LastWithId(ms, m.id).value;
    var i :| 0 <= i < |ms| && ms[i] == m;
    var j :| 0 <= j < |ms| && ms[j] == x;
    assert MessageId(ms[i]) == MessageId(ms[j]);
    assert i == j;
  }

  /** With distinct live ids, every id that is not deleted and that either side has is shown,
      by the copy `Winner` picks. */
  lemma MergeShowsWinner(page: seq<Message>, local: seq<Message>, deleted: set<string>, k: string)
    requires UniqueIds(local) && k !in deleted && k in Ids(page) + Ids(local)
    ensures Winner(LastWithId(page, k), LastWithId(local, k)).Some?
    ensures Winner(LastWithId(page, k), LastWithId(local, k)).value in Merge(page, local, deleted)
  {
    var r := Merge(page, local, deleted);
    MergeIds(page, local, deleted);
    assert k in Ids(r);
    var i :| 0 <= i < |r| && MessageId(r[i]) == k;
    var x := r[i];
    assert x in r;
    MergeKeepsNewer(page, local, deleted);
    assert Some(x) == Winner(LastWithId(page, x.id), LastWithId(local, x.id));
  }

  /** A live message that is not deleted and is newer than the server's copy (or has none) is
      what the merge shows for its id after it is upserted. */
  lemma UpsertedMessageShows(page: seq<Message>, local: seq<Message>, deleted: set<string>, m: Message)
    requires UniqueIds(local) && m.id !in deleted
    requires LastWithId(page, m.id).None? || LastWithId(page, m.id).value.updatedAt < m.updatedAt
    ensures m in Merge(page, Upserted(local, m), deleted)
  {
    var local' := Upserted(local, m);
    UpsertedKeepsIdsUnique(local, m);
    MergeShowsWinner(page, local', deleted, m.id);
  }

  /** The live message lists per community and the ids deleted on this page. */
  datatype ChatState = ChatState(local: map<string, seq<Message>>, deleted: set<string>)

  /** The list without the messages with id `id`, in their order. */
  function WithoutId(ms: seq<Message>, id: string): (r: seq<Message>)
    ensures forall m :: m in r <==> m in ms && m.id != id
    ensures |r| <= |ms|
    decreases |ms|
  {
    if |ms| == 0 then []
    else
      var rest := WithoutId(ms[..|ms| - 1], id);
      var m := ms[|ms| - 1];
      assert forall x :: x in ms <==> x in ms[..|ms| - 1] || x == m;
      if m.id == id then rest else rest + [m]
  }

  /** Filtering keeps the relative order: it distributes over concatenation, and leaves a list
      without the id as it is. */
  lemma {:induction false} WithoutIdKeepsOrder(a: seq<Message>, b: seq<Message>, id: string)
    ensures WithoutId(a + b, id) == WithoutId(a, id) + WithoutId(b, id)
    ensures id !in Ids(a) ==> WithoutId(a, id) == a
    decreases |b|
  {
    if |b| > 0 {
      assert (a + b)[..|a + b| - 1] == a + b[..|b| - 1];
      WithoutIdKeepsOrder(a, b[..|b| - 1], id);
    } else {
      assert a + b == a;
      WithoutIdUnchanged(a, id);
    }
  }

  /** Removing an id keeps the ids of a list distinct. */
  lemma {:induction false} WithoutIdKeepsIdsUnique(ms: seq<Message>, id: string)
    requires UniqueIds(ms)
    ensures UniqueIds(WithoutId(ms, id))
    decreases |ms|
  {
    if |ms| > 0 {
      var p := ms[..|ms| - 1];
      var m := ms[|ms| - 1];
      assert UniqueIds(p) by {
        forall i, j | 0 <= i < j < |p| ensures MessageId(p[i]) != MessageId(p[j]) {
          assert p[i] == ms[i] && p[j] == ms[j];
        }
      }
      WithoutIdKeepsIdsUnique(p, id);
      var rest := WithoutId(p, id);
      forall i | 0 <= i < |rest| ensures MessageId(rest[i]) != MessageId(m) {
        assert rest[i] in rest;
        var k :| 0 <= k < |p| && p[k] == rest[i];
        assert ms[k] == p[k];
      }
    }
  }

  lemma {:induction false} WithoutIdUnchanged(a: seq<Message>, id: string)
    ensures id !in Ids(a) ==> WithoutId(a, id) == a
    decreases |a|
  {
    if |a| > 0 {
      Text.KeysOfSnoc(a, MessageId);
      WithoutIdUnchanged(a[..|a| - 1], id);
      assert a[..|a| - 1] + [a[|a| - 1]] == a;
    }
  }

  /** `removeMessage`: the id joins the deleted set and its messages leave that community's list. */
  function RemoveMessage(s: ChatState, messageId: string, communityId: string): (r: ChatState)
    ensures r.deleted == s.deleted + {messageId}
    ensures r.local.Keys == s.local.Keys + {communityId}
    ensures forall c :: c in s.local && c != communityId ==> r.local[c] == s.local[c]
    ensures forall m :: m in r.local[communityId] <==> m in ListOf(s.local, communityId) && m.id != messageId
  {
    ChatState(s.local[communityId := WithoutId(ListOf(s.local, communityId), messageId)], s.deleted + {messageId})
  }

  /** A removal keeps every community's live list free of repeated ids. */
  lemma RemoveMessageKeepsIdsUnique(s: ChatState, messageId: string, communityId: string)
    requires forall c :: c in s.local ==> UniqueIds(s.local[c])
    ensures forall c :: c in RemoveMessage(s, messageId, communityId).local ==>
              UniqueIds(RemoveMessage(s, messageId, communityId).local[c])
  {
    assert UniqueIds(ListOf(s.local, communityId));
    WithoutIdKeepsIdsUnique(ListOf(s.local, communityId), messageId);
  }

  /** After a removal, no community's merged list shows the removed id. */
  lemma RemovedMessageHidden(s: ChatState, messageId: string, communityId: string, page: seq<Message>, c: string)
    ensures messageId !in Ids(Merge(page, ListOf(RemoveMessage(s, messageId, communityId).local, c),
                                    RemoveMessage(s, messageId, communityId).deleted))
  {
    var r := RemoveMessage(s, messageId, communityId);
    var merged := Merge(page, ListOf(r.local, c), r.deleted);
    MergeExcludesDeleted(page, ListOf(r.local, c), r.deleted);
    forall i | 0 <= i < |merged| ensures MessageId(merged[i]) != messageId {
      assert merged[i] in merged;
    }
  }

  // ---------------------------------------------------------------------------------------------
  // Guards

  datatype Seller = Seller(id: string, name: string)

  /** A community as the page sees it; `lastReadAt` is the creation time of the last message read. */
  datatype Community = Community(id: string, seller: Seller, lastReadAt: Option<int>)

  /** The request the debounced read marker posts. */
  datatype ReadRequest = ReadRequest(communityId: string, messageId: string, createdAt: int)

  /** `markMessageAsRead` followed by the debounced call: the request posted, if any. Nothing is
      posted without a selected community, for a message not created strictly after the last
      read one (a missing time counts as 0), or when either id is empty. */
  function MarkAsRead(selected: Option<Community>, m: Message): (r: Option<ReadRequest>)
    ensures r.Some? <==> && selected.Some?
                         && m.createdAt > selected.value.lastReadAt.GetOr(0)
                         && selected.value.id != "" && m.id != ""
    ensures r.Some? ==> r.value == ReadRequest(selected.value.id, m.id, m.createdAt)
  {
    if selected.None? then None
    else if m.createdAt <= selected.value.lastReadAt.GetOr(0) then None
    else if selected.value.id == "" || m.id == "" then None
    else Some(ReadRequest(selected.value.id, m.id, m.createdAt))
  }

  /** The `onSuccess` of the read marker: the community's last read time becomes the message's. */
  function AfterRead(c: Community, req: ReadRequest): Community {
    c.(lastReadAt := Some(req.createdAt))
  }

  /** Once a read is recorded and the guard sees the community it updated, neither that message
      nor any created no later is marked again. */
  lemma MarkAsReadOnce(c: Community, m: Message, m': Message)
    requires MarkAsRead(Some(c), m).Some?
    requires m'.createdAt <= m.createdAt
    ensures MarkAsRead(Some(AfterRead(c, MarkAsRead(Some(c), m).value)), m').None?
  {
  }

  /** A message created later than one that is marked is marked too. */
  lemma MarkAsReadMonotone(c: Community, m: Message, m': Message)
    requires MarkAsRead(Some(c), m).Some? && m'.createdAt >= m.createdAt && m'.id != ""
    ensures MarkAsRead(Some(c), m').Some?
  {
  }

  /** JavaScript white space and line terminators, the characters `String.prototype.trim` strips. */
  predicate IsJsSpace(c: char) {
    || c == '\t' || c == '\n' || c == '\U{000B}' || c == '\U{000C}' || c == '\r' || c == ' '
    || c == '\U{00A0}' || c == '\U{1680}' || '\U{2000}' <= c <= '\U{200A}' || c == '\U{2028}'
    || c == '\U{2029}' || c == '\U{202F}' || c == '\U{205F}' || c == '\U{3000}' || c == '\U{FEFF}'
  }

  predicate AllJsSpace(s: string) {
    forall i :: 0 <= i < |s| ==> IsJsSpace(s[i])
  }

  function TrimStart(s: string): (r: string)
    ensures |r| <= |s| && r == s[|s| - |r|..]
    ensures AllJsSpace(s[..|s| - |r|])
    ensures |r| > 0 ==> !IsJsSpace(r[0])
    decreases |s|
  {
    if |s| > 0 && IsJsSpace(s[0]) then TrimStart(s[1..]) else s
  }

  function TrimEnd(s: string): (r: string)
    ensures |r| <= |s| && r == s[..|r|]
    ensures AllJsSpace(s[|r|..])
    ensures |r| > 0 ==> !IsJsSpace(r[|r| - 1])
    decreases |s|
  {
    if |s| > 0 && IsJsSpace(s[|s| - 1]) then TrimEnd(s[..|s| - 1]) else s
  }

  /** `String.prototype.trim`: the input with white space removed from both ends; it is empty
      exactly when the input is all white space. */
  function Trim(s: string): (r: string)
    ensures r == "" <==> AllJsSpace(s)
    ensures |r| > 0 ==> !IsJsSpace(r[0]) && !IsJsSpace(r[|r| - 1])
  {
    var r := TrimEnd(TrimStart(s));
    assert r == "" ==> AllJsSpace(s) by {
      if r == "" {
        var t := TrimStart(s);
        assert t[0..] == t;
        assert |t| == 0;
        assert s[..|s|] == s;
      }
    }
    r
  }

  /** A community's message draft. */
  datatype Draft = Draft(content: string, isSending: bool)

  /** The guards of `sendMessage`: the draft marked as sending when a send starts, or nothing
      when there is no selected community or draft, a send is in flight, or the content is blank. */
  function SendMessage(selected: Option<Community>, draft: Option<Draft>): (r: Option<Draft>)
    ensures r.Some? <==> selected.Some? && draft.Some? && !draft.value.isSending && !AllJsSpace(draft.value.content)
    ensures r.Some? ==> r.value == draft.value.(isSending := true)
  {
    if selected.None? then None
    else if draft.None? then None
    else if draft.value.isSending then None
    else if Trim(draft.value.content) == "" then None
    else Some(draft.value.(isSending := true))
  }

  /** The post's `onSuccess`: the draft is cleared and no longer sending. */
  function OnSendSuccess(d: Draft): Draft {
    Draft("", false)
  }

  /** The post's `onError`: the draft is kept and no longer sending. */
  function OnSendError(d: Draft): Draft {
    d.(isSending := false)
  }

  /** A send in flight blocks another; after success the cleared draft cannot be sent; after an
      error the same draft can be sent again. */
  lemma SendMessageCycle(selected: Option<Community>, draft: Option<Draft>)
    requires SendMessage(selected, draft).Some?
    ensures SendMessage(selected, SendMessage(selected, draft)).None?
    ensures SendMessage(selected, Some(OnSendSuccess(SendMessage(selected, draft).value))).None?
    ensures SendMessage(selected, Some(OnSendError(SendMessage(selected, draft).value))) == SendMessage(selected, draft)
  {
  }

  // ---------------------------------------------------------------------------------------------
  // The seller switcher

  function SellerId(s: Seller): string { s.id }
  function SellerName(s: Seller): string { s.name }

  function SellersOf(communities: seq<Community>): (r: seq<Seller>)
    ensures |r| == |communities| && forall i :: 0 <= i < |r| ==> r[i] == communities[i].seller
  {
    seq(|communities|, i requires 0 <= i < |communities| => communities[i].seller)
  }

  /** `sellers`: the first seller seen for each id, sorted by name. */
  function Sellers(communities: seq<Community>): (r: seq<Seller>)
    ensures Sorting.SortedBy(r, SellerName, Text.LexLe)
    ensures multiset(r) == multiset(Text.DedupBy(SellersOf(communities), SellerId))
  {
    Sorting.LexLeTotalPreorder();
    Sorting.SortBy(Text.DedupBy(SellersOf(communities), SellerId), SellerName, Text.LexLe)
  }

  /** One entry per seller id of the communities, and each entry is the first seller object the
      communities carry for that id. */
  lemma SellersProperties(communities: seq<Community>)
    ensures Text.KeysUnique(Sellers(communities), SellerId)
    ensures Text.Keys(Sellers(communities), SellerId) == Text.Keys(SellersOf(communities), SellerId)
    ensures forall s :: s in Sellers(communities) ==> Text.FirstWithKey(SellersOf(communities), SellerId, s)
  {
    var all := SellersOf(communities);
    var d := Text.DedupBy(all, SellerId);
    var r := Sellers(communities);
    Text.DedupByKeys(all, SellerId);
    Text.DedupByKeepsFirst(all, SellerId);
    Sorting.PermutationKeepsKeysUnique(d, r, SellerId);
    Sorting.PermutationKeys(d, r, SellerId);
    forall s | s in r ensures Text.FirstWithKey(all, SellerId, s) {
      assert s in multiset(d);
    }
  }

  /** `sellersExceptSelected`: the sellers other than the selected community's, in order; all of
      them when nothing is selected. */
  function SellersExceptSelected(sellers: seq<Seller>, selected: Option<Community>): (r: seq<Seller>)
    ensures forall s :: s in r <==> s in sellers && (selected.None? || s.id != selected.value.seller.id)
    ensures selected.None? ==> r == sellers
    decreases |sellers|
  {
    if |sellers| == 0 then []
    else
      var rest := SellersExceptSelected(sellers[..|sellers| - 1], selected);
      var s := sellers[|sellers| - 1];
      assert sellers == sellers[..|sellers| - 1] + [s];
      if selected.Some? && s.id == selected.value.seller.id then rest else rest + [s]
  }

  /** `selectedSellerCommunities`: the communities of the selected community's seller, in order;
      none when nothing is selected. */
  function SelectedSellerCommunities(communities: seq<Community>, selected: Option<Community>): (r: seq<Community>)
    ensures forall c :: c in r <==> c in communities && selected.Some? && c.seller.id == selected.value.seller.id
    ensures selected.Some? && selected.value in communities ==> selected.value in r
    decreases |communities|
  {
    if |communities| == 0 then []
    else
      var rest := SelectedSellerCommunities(communities[..|communities| - 1], selected);
      var c := communities[|communities| - 1];
      assert communities == communities[..|communities| - 1] + [c];
      if selected.Some? && c.seller.id == selected.value.seller.id then rest + [c] else rest
  }

  /** The filter keeps the sellers' order and multiplicity: it distributes over concatenation. */
  lemma {:induction false} SellersExceptSelectedAppend(a: seq<Seller>, b: seq<Seller>, selected: Option<Community>)
    ensures SellersExceptSelected(a + b, selected) == SellersExceptSelected(a, selected) + SellersExceptSelected(b, selected)
    decreases |b|
  {
    if |b| > 0 {
      assert (a + b)[..|a + b| - 1] == a + b[..|b| - 1];
      SellersExceptSelectedAppend(a, b[..|b| - 1], selected);
    } else {
      assert a + b == a;
    }
  }

  /** A single seller is kept exactly when it is not the selected community's seller. */
  lemma SellersExceptSelectedOne(s: Seller, selected: Option<Community>)
    ensures SellersExceptSelected([s], selected) == if selected.Some? && s.id == selected.value.seller.id then [] else [s]
  {
    assert [s][..0] == [];
  }

  /** Leaving sellers out of a list sorted by name leaves it sorted by name, so the switcher shows
      the other sellers in the order of `sellers`. */
  lemma {:induction false} SellersExceptSelectedSorted(sellers: seq<Seller>, selected: Option<Community>)
    requires Sorting.SortedBy(sellers, SellerName, Text.LexLe)
    ensures Sorting.SortedBy(SellersExceptSelected(sellers, selected), SellerName, Text.LexLe)
    decreases |sellers|
  {
    if |sellers| > 0 {
      var p := sellers[..|sellers| - 1];
      var s := sellers[|sellers| - 1];
      assert Sorting.SortedBy(p, SellerName, Text.LexLe) by {
        forall i, j | 0 <= i < j < |p| ensures Text.LexLe(SellerName(p[i]), SellerName(p[j])) {
          assert p[i] == sellers[i] && p[j] == sellers[j];
        }
      }
      SellersExceptSelectedSorted(p, selected);
      var rest := SellersExceptSelected(p, selected);
      forall i | 0 <= i < |rest| ensures Text.LexLe(SellerName(rest[i]), SellerName(s)) {
        assert rest[i] in rest;
        var k :| 0 <= k < |p| && p[k] == rest[i];
        assert sellers[k] == p[k];
      }
    }
  }

  /** The filter keeps the communities' order: it distributes over concatenation. */
  lemma {:induction false} SelectedSellerCommunitiesAppend(a: seq<Community>, b: seq<Community>, selected: Option<Community>)
    ensures SelectedSellerCommunities(a + b, selected)
         == SelectedSellerCommunities(a, selected) + SelectedSellerCommunities(b, selected)
    decreases |b|
  {
    if |b| > 0 {
      assert (a + b)[..|a + b| - 1] == a + b[..|b| - 1];
      SelectedSellerCommunitiesAppend(a, b[..|b| - 1], selected);
    } else {
      assert a + b == a;
    }
  }

  /** A single community is kept exactly when it belongs to the selected community's seller. */
  lemma SelectedSellerCommunitiesOne(c: Community, selected: Option<Community>)
    ensures SelectedSellerCommunities([c], selected) == if selected.Some? && c.seller.id == selected.value.seller.id then [c] else []
  {
    assert [c][..0] == [];
  }

  /** Leaving out the selected community's seller removes exactly that seller id. */
  lemma SellersExceptSelectedKeys(sellers: seq<Seller>, selected: Community)
    ensures Text.Keys(SellersExceptSelected(sellers, Some(selected)), SellerId)
         == Text.Keys(sellers, SellerId) - {selected.seller.id}
  {
    var r := SellersExceptSelected(sellers, Some(selected));
    forall k | k in Text.Keys(r, SellerId) ensures k in Text.Keys(sellers, SellerId) - {selected.seller.id} {
      var i :| 0 <= i < |r| && SellerId(r[i]) == k;
      assert r[i] in r;
    }
    forall k | k in Text.Keys(sellers, SellerId) - {selected.seller.id} ensures k in Text.Keys(r, SellerId) {
      var i :| 0 <= i < |sellers| && SellerId(sellers[i]) == k;
      assert sellers[i] in sellers;
    }
  }

  /** Leaving a seller out keeps the seller ids unique. */
  lemma {:induction false} SellersExceptSelectedUnique(sellers: seq<Seller>, selected: Option<Community>)
    requires Text.KeysUnique(sellers, SellerId)
    ensures Text.KeysUnique(SellersExceptSelected(sellers, selected), SellerId)
    decreases |sellers|
  {
    if |sellers| > 0 {
      var p := sellers[..|sellers| - 1];
      var s := sellers[|sellers| - 1];
      assert Text.KeysUnique(p, SellerId) by {
        forall i, j | 0 <= i < j < |p| ensures SellerId(p[i]) != SellerId(p[j]) {
          assert p[i] == sellers[i] && p[j] == sellers[j];
        }
      }
      SellersExceptSelectedUnique(p, selected);
      var rest := SellersExceptSelected(p, selected);
      forall i | 0 <= i < |rest| ensures SellerId(rest[i]) != SellerId(s) {
        assert rest[i] in rest;
        var k :| 0 <= k < |p| && p[k] == rest[i];
        assert sellers[k] == p[k];
      }
    }
  }

  /** The switcher lists every seller but the selected one exactly once, sorted by name. */
  lemma SwitcherListsOtherSellers(communities: seq<Community>, selected: Community)
    ensures Sorting.SortedBy(SellersExceptSelected(Sellers(communities), Some(selected)), SellerName, Text.LexLe)
    ensures Text.KeysUnique(SellersExceptSelected(Sellers(communities), Some(selected)), SellerId)
    ensures Text.Keys(SellersExceptSelected(Sellers(communities), Some(selected)), SellerId)
         == Text.Keys(SellersOf(communities), SellerId) - {selected.seller.id}
  {
    SellersProperties(communities);
    SellersExceptSelectedKeys(Sellers(communities), selected);
    SellersExceptSelectedUnique(Sellers(communities), Some(selected));
    SellersExceptSelectedSorted(Sellers(communities), Some(selected));
  }

  // ---------------------------------------------------------------------------------------------
  // Scroll anchors

  /** `ScrollLogicalPosition`. */
  datatype ScrollPosition = Start | Center | End | Nearest

  datatype ScrollTarget =
    | Top
    | Bottom
    | UnreadSeparator
    | MessageTarget(messageId: string, position: Option<ScrollPosition>)

  const MessagePrefix := "message-"

  /** The `data-id` of the element `scrollTo` looks for. */
  function ScrollElementId(to: ScrollTarget): (id: string)
    ensures to.MessageTarget? <==> |id| >= |MessagePrefix| && id[..|MessagePrefix|] == MessagePrefix
    ensures to.MessageTarget? ==> id[|MessagePrefix|..] == to.messageId
  {
    match to
    case Top => "top"
    case Bottom => "bottom"
    case UnreadSeparator =>
      assert "unread-separator"[0] != MessagePrefix[0];
      "unread-separator"
    case MessageTarget(messageId, _) => MessagePrefix + messageId
  }

  /** The `block` alignment: a message's requested position, centred otherwise. */
  function ScrollBlock(to: ScrollTarget): (p: ScrollPosition)
    ensures !to.MessageTarget? || to.position.None? ==> p == Center
    ensures to.MessageTarget? && to.position.Some? ==> p == to.position.value
  {
    if to.MessageTarget? then to.position.GetOr(Center) else Center
  }

  /** The target without its alignment. */
  function Anchor(to: ScrollTarget): ScrollTarget {
    if to.MessageTarget? then MessageTarget(to.messageId, None) else to
  }

  /** Distinct anchors have distinct element ids. */
  lemma ScrollElementIdInjective(a: ScrollTarget, b: ScrollTarget)
    ensures ScrollElementId(a) == ScrollElementId(b) <==> Anchor(a) == Anchor(b)
  {
    if ScrollElementId(a) == ScrollElementId(b) && a.MessageTarget? && b.MessageTarget? {
      assert a.messageId == ScrollElementId(a)[|MessagePrefix|..];
    }
  }
}
