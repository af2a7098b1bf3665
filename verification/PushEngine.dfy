/** The push engine's subscription index: an in-memory map from config keys to subscribers, and one
    row per client in the subscriber table from which LoadSubscribers must be able to rebuild it. */
module PushEngine {
  import opened Runs

  type ClientId = string

  // ---------- keys ----------

  function SubscriptionKey(ns: string, group: string, dataId: string): string { ns + ":" + group + ":" + dataId }

  // What the table stores: "group:dataId".
  function ListKey(group: string, dataId: string): string { group + ":" + dataId }

  function Parse(key: string): (string, string)
  {
    if key == "" then ("", "")
    else if key[0] == ':' then ("", key[1..])
    else
      var rest := Parse(key[1..]);
      ([key[0]] + rest.0, rest.1)
  }

  // Parse splits at the first colon.
  lemma {:induction false} ParseAtColon(group: string, dataId: string)
    requires ':' !in group
    ensures Parse(group + ":" + dataId) == (group, dataId)
  {
    var key := group + ":" + dataId;
    if group == "" {
      assert key[1..] == dataId;
    } else {
      assert key[1..] == group[1..] + ":" + dataId;
      ParseAtColon(group[1..], dataId);
      assert group == [key[0]] + group[1..];
    }
  }

  lemma {:induction false} ParseAnything(key: string)
    ensures ':' !in Parse(key).0
    ensures ':' in key ==> key == Parse(key).0 + ":" + Parse(key).1
    ensures ':' !in key ==> Parse(key) == (key, "")
  {
    if key != "" && key[0] != ':' {
      ParseAnything(key[1..]);
      assert key == [key[0]] + key[1..];
    }
  }

  method ParseSubscriptionKey(key: string) returns (group: string, dataId: string)
    ensures (group, dataId) == Parse(key)
  {
    for i := 0 to |key|
      invariant ':' !in key[..i]
    {
      if key[i] == ':' {
        assert key == key[..i] + ":" + key[i + 1..];
        ParseAtColon(key[..i], key[i + 1..]);
        return key[..i], key[i + 1..];
      }
    }
    ParseAnything(key);
    return key, "";
  }

  /** The stored "group:dataId" parses back exactly when the group has no colon; dataId may have any. */
  lemma {:induction false} ListKeyRoundTrip(group: string, dataId: string)
    ensures Parse(ListKey(group, dataId)) == (group, dataId) <==> ':' !in group
  {
    ParseAnything(ListKey(group, dataId));
    if ':' !in group { ParseAtColon(group, dataId); }
  }

  // ---------- state ----------

  /** An entry of the index; the subscribers' tags and times are not kept. */
  datatype Info = Info(ns: string, group: string, dataId: string, subscribers: set<ClientId>)

  type Index = map<string, Info>

  /** A row of config_subscribers. */
  datatype Row = Row(client: ClientId, ns: string, subscriptions: seq<string>, online: bool)

  datatype State = State(index: Index, rows: seq<Row>)   // rows in primary-key order

  datatype Op =
    | Subscribe(client: ClientId, ns: string, group: string, dataId: string, hasSession: bool)
    | Unsubscribe(client: ClientId, ns: string, group: string, dataId: string)

  // LoadOrStore of an entry.
  function Ensured(index: Index, ns: string, group: string, dataId: string): Index
  {
    var key := SubscriptionKey(ns, group, dataId);
    if key in index then index else index[key := Info(ns, group, dataId, {})]
  }

  function Added(index: Index, ns: string, group: string, dataId: string, client: ClientId): Index
  {
    var key := SubscriptionKey(ns, group, dataId);
    var e := Ensured(index, ns, group, dataId);
    e[key := e[key].(subscribers := e[key].subscribers + {client})]
  }

  // GetSubscriber: the first row of the client, or |rows|.
  function RowOf(rows: seq<Row>, client: ClientId): (i: nat)
    ensures i <= |rows| && (i < |rows| ==> rows[i].client == client)
    ensures forall k :: 0 <= k < i ==> rows[k].client != client
  {
    if rows == [] || rows[0].client == client then 0 else 1 + RowOf(rows[1..], client)
  }

  function Without(list: seq<string>, item: string): (r: seq<string>)
    ensures forall x :: x in r <==> x in list && x != item
  {
    if list == [] then []
    else if list[0] == item then Without(list[1..], item)
    else [list[0]] + Without(list[1..], item)
  }

  function WithoutClient(rows: seq<Row>, client: ClientId): (r: seq<Row>)
    ensures forall x :: x in r <==> x in rows && x.client != client
  {
    if rows == [] then []
    else if rows[0].client == client then WithoutClient(rows[1..], client)
    else [rows[0]] + WithoutClient(rows[1..], client)
  }

  function RowsSubscribed(rows: seq<Row>, client: ClientId, ns: string, item: string): seq<Row>
  {
    var i := RowOf(rows, client);
    if i < |rows| then
      var row := rows[i];
      var list := if item in row.subscriptions then row.subscriptions else row.subscriptions + [item];
      rows[i := Row(client, ns, list, true)]
    else rows + [Row(client, ns, [item], true)]
  }

  function RowsUnsubscribed(rows: seq<Row>, client: ClientId, item: string): seq<Row>
  {
    var i := RowOf(rows, client);
    if i < |rows| then
      var left := Without(rows[i].subscriptions, item);
      if left == [] then WithoutClient(rows, client) else rows[i := rows[i].(subscriptions := left)]
    else rows
  }

  function Step(s: State, op: Op): State
  {
    var item := ListKey(op.group, op.dataId);
    match op
    case Subscribe(client, ns, group, dataId, hasSession) =>
      if hasSession
      then State(Added(s.index, ns, group, dataId, client), RowsSubscribed(s.rows, client, ns, item))
      else State(Ensured(s.index, ns, group, dataId), s.rows)
    case Unsubscribe(client, ns, group, dataId) =>
      var key := SubscriptionKey(ns, group, dataId);
      if key !in s.index then s
      else State(s.index[key := s.index[key].(subscribers := s.index[key].subscribers - {client})],
                 RowsUnsubscribed(s.rows, client, item))
  }

  // LoadSubscribers on the rows the query lists.
  function LoadRow(index: Index, row: Row, list: seq<string>): Index
  {
    if list == [] then index
    else
      var front := LoadRow(index, row, list[..|list| - 1]);
      var name := Parse(list[|list| - 1]);
      Added(front, row.ns, name.0, name.1, row.client)
  }

  function Load(index: Index, listed: seq<Row>): Index
  {
    if listed == [] then index
    else
      var last := listed[|listed| - 1];
      LoadRow(Load(index, listed[..|listed| - 1]), last, last.subscriptions)
  }

  // ---------- the engine object ----------

  class Engine {
    var subscriptions: Index
    var rows: seq<Row>

    ghost function Abs(): State reads this { State(subscriptions, rows) }

    constructor (rows: seq<Row>)
      ensures Abs() == State(map[], rows)
    {
      this.subscriptions, this.rows := map[], rows;
    }

    method Subscribe(client: ClientId, ns: string, group: string, dataId: string, hasSession: bool) returns (ok: bool)
      modifies this
      ensures Abs() == Step(old(Abs()), Op.Subscribe(client, ns, group, dataId, hasSession)) && ok == hasSession
      ensures forall c, k ::
        (Subscribed(subscriptions, c, k)
         <==> Subscribed(old(subscriptions), c, k) || (ok && c == client && k == ns + ":" + group + ":" + dataId))
    {
      var key := SubscriptionKey(ns, group, dataId);
      if key !in subscriptions {
        subscriptions := subscriptions[key := Info(ns, group, dataId, {})];
      }
      if !hasSession { return false; }
      var info := subscriptions[key];
      subscriptions := subscriptions[key := info.(subscribers := info.subscribers + {client})];
      var i := RowOf(rows, client);
      if i < |rows| {
        var item := ListKey(group, dataId);
        var list := rows[i].subscriptions;
        var found := false;
        for k := 0 to |list|
          invariant found <==> item in list[..k]
        {
          if list[k] == item { found := true; break; }
        }
        if !found { list := list + [item]; }
        rows := rows[i := Row(client, ns, list, true)];
      } else {
        rows := rows + [Row(client, ns, [ListKey(group, dataId)], true)];
      }
      return true;
    }

    method Unsubscribe(client: ClientId, ns: string, group: string, dataId: string)
      modifies this
      ensures Abs() == Step(old(Abs()), Op.Unsubscribe(client, ns, group, dataId))
      ensures forall c, k ::
        (Subscribed(subscriptions, c, k)
         <==> Subscribed(old(subscriptions), c, k) && !(c == client && k == ns + ":" + group + ":" + dataId))
    {
      var key := SubscriptionKey(ns, group, dataId);
      if key !in subscriptions { return; }
      var info := subscriptions[key];
      subscriptions := subscriptions[key := info.(subscribers := info.subscribers - {client})];
      var i := RowOf(rows, client);
      if i < |rows| {
        var item, list, left := ListKey(group, dataId), rows[i].subscriptions, [];
        for k := 0 to |list|
          invariant Without(list, item) == left + Without(list[k..], item)
        {
          if list[k] != item { left := left + [list[k]]; }
        }
        assert left + [] == left;
        if |left| == 0 {
          rows := WithoutClient(rows, client);
        } else {
          rows := rows[i := rows[i].(subscriptions := left)];
        }
      }
    }

    method LoadSubscribers(listed: seq<Row>)
      modifies this
      ensures Abs() == State(Load(old(subscriptions), listed), old(rows))
    {
      for r := 0 to |listed|
        invariant subscriptions == Load(old(subscriptions), listed[..r]) && rows == old(rows)
      {
        var row := listed[r];
        var before := subscriptions;
        for k := 0 to |row.subscriptions|
          invariant subscriptions == LoadRow(before, row, row.subscriptions[..k]) && rows == old(rows)
        {
          var group, dataId := ParseSubscriptionKey(row.subscriptions[k]);
          var key := SubscriptionKey(row.ns, group, dataId);
          if key !in subscriptions {
            subscriptions := subscriptions[key := Info(row.ns, group, dataId, {})];
          }
          var info := subscriptions[key];
          subscriptions := subscriptions[key := info.(subscribers := info.subscribers + {row.client})];
          assert row.subscriptions[..k + 1][..k] == row.subscriptions[..k];
        }
        assert row.subscriptions[..|row.subscriptions|] == row.subscriptions;
        assert listed[..r + 1][..r] == listed[..r];
      }
      assert listed[..|listed|] == listed;
    }
  }

  // ---------- relations ----------

  predicate Subscribed(index: Index, client: ClientId, key: string) { key in index && client in index[key].subscribers }

  ghost predicate Listed(rows: seq<Row>, client: ClientId, item: string)
  {
    exists row <- rows :: row.client == client && item in row.subscriptions
  }

  // Each client keeps to one namespace.
  ghost predicate AtHome(home: ClientId -> string, ops: seq<Op>) { forall op <- ops :: op.ns == home(op.client) }

  ghost predicate RowOk(row: Row)
  {
    && row.online
    && row.subscriptions != []
    && (forall i, j :: 0 <= i < j < |row.subscriptions| ==> row.subscriptions[i] != row.subscriptions[j])
    && (forall item <- row.subscriptions :: ':' in item)
  }

  ghost predicate RowsOk(rows: seq<Row>)
  {
    && (forall row <- rows :: RowOk(row))
    && (forall i, j :: 0 <= i < j < |rows| ==> rows[i].client != rows[j].client)
  }

  ghost predicate RowsAt(home: ClientId -> string, rows: seq<Row>) { forall row <- rows :: row.ns == home(row.client) }

  // The index and the table say the same.
  ghost predicate Agree(home: ClientId -> string, s: State)
  {
    && (forall c, item :: Subscribed(s.index, c, home(c) + ":" + item) <==> Listed(s.rows, c, item))
    && (forall c, key :: Subscribed(s.index, c, key) ==> exists item :: key == home(c) + ":" + item)
  }

  ghost predicate Inv(home: ClientId -> string, s: State)
  {
    RowsOk(s.rows) && RowsAt(home, s.rows) && Agree(home, s)
  }

  lemma {:induction false} WithoutKeepsDistinct(list: seq<string>, item: string)
    requires forall i, j :: 0 <= i < j < |list| ==> list[i] != list[j]
    ensures forall i, j :: 0 <= i < j < |Without(list, item)| ==> Without(list, item)[i] != Without(list, item)[j]
  {
    if list != [] {
      WithoutKeepsDistinct(list[1..], item);
      var r, rest := Without(list, item), Without(list[1..], item);
      if list[0] != item {
        forall i, j | 0 <= i < j < |r| ensures r[i] != r[j] {
          assert r[j] == rest[j - 1] && rest[j - 1] in list[1..];
        }
      }
    }
  }

  lemma {:induction false} WithoutClientKeepsDistinct(rows: seq<Row>, client: ClientId)
    requires forall i, j :: 0 <= i < j < |rows| ==> rows[i].client != rows[j].client
    ensures forall i, j :: 0 <= i < j < |WithoutClient(rows, client)| ==>
      WithoutClient(rows, client)[i].client != WithoutClient(rows, client)[j].client
  {
    if rows != [] {
      WithoutClientKeepsDistinct(rows[1..], client);
      var r, rest := WithoutClient(rows, client), WithoutClient(rows[1..], client);
      if rows[0].client != client {
        forall i, j | 0 <= i < j < |r| ensures r[i].client != r[j].client {
          assert r[j] == rest[j - 1] && rest[j - 1] in rows[1..];
        }
      }
    }
  }

  lemma SubscribeRows(rows: seq<Row>, client: ClientId, ns: string, item: string)
    requires RowsOk(rows) && ':' in item
    ensures RowsOk(RowsSubscribed(rows, client, ns, item))
    ensures forall row <- RowsSubscribed(rows, client, ns, item) ::
      if row.client == client then row.ns == ns else row in rows
    ensures forall c, x ::
      (Listed(RowsSubscribed(rows, client, ns, item), c, x) <==> Listed(rows, c, x) || (c == client && x == item))
  {
    var after := RowsSubscribed(rows, client, ns, item);
    var i := RowOf(rows, client);
    assert i < |after| && RowOk(after[i]) by {
      if i < |rows| { assert RowOk(rows[i]); }
    }
    forall c, x ensures Listed(after, c, x) <==> Listed(rows, c, x) || (c == client && x == item) {
      if c == client { OneRow(after, i, x); if i < |rows| { OneRow(rows, i, x); } }
      else { OtherRows(rows, after, c, x, i); }
    }
  }

  // A client's only row decides what is listed for it.
  lemma OneRow(rows: seq<Row>, i: nat, item: string)
    requires i < |rows| && forall a, b :: 0 <= a < b < |rows| ==> rows[a].client != rows[b].client
    ensures Listed(rows, rows[i].client, item) <==> item in rows[i].subscriptions
  {
    assert rows[i] in rows;
  }

  lemma OtherRows(rows: seq<Row>, after: seq<Row>, client: ClientId, item: string, i: nat)
    requires |rows| <= |after| <= |rows| + 1 && i < |after| && after[i].client != client
    requires i < |rows| ==> rows[i].client != client && |after| == |rows|
    requires i == |rows| || i < |rows|
    requires forall k :: 0 <= k < |rows| && k != i ==> after[k] == rows[k]
    ensures Listed(after, client, item) <==> Listed(rows, client, item)
  {
    if Listed(rows, client, item) {
      var k :| 0 <= k < |rows| && rows[k].client == client && item in rows[k].subscriptions;
      assert after[k] in after;
    }
    if Listed(after, client, item) {
      var k :| 0 <= k < |after| && after[k].client == client && item in after[k].subscriptions;
      assert rows[k] in rows;
    }
  }

  lemma UnsubscribeRows(rows: seq<Row>, client: ClientId, item: string)
    requires RowsOk(rows)
    ensures RowsOk(RowsUnsubscribed(rows, client, item))
    ensures var i := RowOf(rows, client);
      forall row <- RowsUnsubscribed(rows, client, item) ::
        row in rows || (i < |rows| && row.client == client && row.ns == rows[i].ns)
    ensures forall c, x ::
      Listed(RowsUnsubscribed(rows, client, item), c, x) <==> Listed(rows, c, x) && !(c == client && x == item)
  {
    var after := RowsUnsubscribed(rows, client, item);
    var i := RowOf(rows, client);
    if i < |rows| {
      var left := Without(rows[i].subscriptions, item);
      assert RowOk(rows[i]);
      WithoutKeepsDistinct(rows[i].subscriptions, item);
      WithoutClientKeepsDistinct(rows, client);
      if left != [] {
        assert RowOk(after[i]);
        forall c, x ensures Listed(after, c, x) <==> Listed(rows, c, x) && !(c == client && x == item) {
          if c == client {
            OneRow(after, i, x);
            OneRow(rows, i, x);
          } else {
            OtherRows(rows, after, c, x, i);
          }
        }
      } else {
        forall x ensures Listed(rows, client, x) ==> x == item { OneRow(rows, i, x); }
      }
    }
  }

  // ---------- runs ----------

  lemma KeyCancels(ns: string, a: string, b: string)
    requires ns + ":" + a == ns + ":" + b
    ensures a == b
  {
    assert (ns + ":" + a)[|ns| + 1..] == a;
    assert (ns + ":" + b)[|ns| + 1..] == b;
  }

  lemma KeyOfItem(ns: string, group: string, dataId: string)
    ensures SubscriptionKey(ns, group, dataId) == ns + ":" + ListKey(group, dataId)
  {
  }

  lemma StepKeepsInv(home: ClientId -> string, s: State, op: Op)
    requires Inv(home, s) && op.ns == home(op.client)
    ensures Inv(home, Step(s, op))
  {
    var t, item := Step(s, op), ListKey(op.group, op.dataId);
    KeyOfItem(op.ns, op.group, op.dataId);
    hide SubscriptionKey, ListKey;
    assert ':' in item by { ItemHasColon(op.group, op.dataId); }
    if op.Subscribe? && op.hasSession {
      SubscribeRows(s.rows, op.client, op.ns, item);
    } else if op.Unsubscribe? {
      UnsubscribeRows(s.rows, op.client, item);
    }
    assert RowsAt(home, t.rows);
    hide RowsSubscribed, RowsUnsubscribed, RowsOk, RowsAt, Listed;
    forall c, x ensures Subscribed(t.index, c, home(c) + ":" + x) <==> Listed(t.rows, c, x) {
      assert Subscribed(s.index, c, home(c) + ":" + x) <==> Listed(s.rows, c, x);
      if c == op.client && home(c) + ":" + x == home(c) + ":" + item { KeyCancels(home(c), x, item); }
    }
    forall c, key | Subscribed(t.index, c, key) ensures exists x :: key == home(c) + ":" + x {
      if !Subscribed(s.index, c, key) { assert key == home(c) + ":" + item; }
    }
  }

  lemma ItemHasColon(group: string, dataId: string)
    ensures ':' in ListKey(group, dataId)
  {
    assert ListKey(group, dataId)[|group|] == ':';
  }

  const EMPTY := State(map[], [])

  lemma {:induction false} AllRuns(home: ClientId -> string, ops: seq<Op>)
    requires AtHome(home, ops)
    ensures Inv(home, Run(Step, EMPTY, ops))
  {
    if ops != [] {
      AllRuns(home, ops[..|ops| - 1]);
      StepKeepsInv(home, Run(Step, EMPTY, ops[..|ops| - 1]), ops[|ops| - 1]);
    }
  }

  // ---------- who is subscribed ----------

  // The last operation of the client on the key that had an effect was a Subscribe.
  predicate Live(ops: seq<Op>, c: ClientId, key: string)
  {
    if ops == [] then false
    else
      var last := ops[|ops| - 1];
      if last.client == c && last.ns + ":" + last.group + ":" + last.dataId == key
        && (last.Subscribe? ==> last.hasSession)
      then last.Subscribe?
      else Live(ops[..|ops| - 1], c, key)
  }

  /** After any run, whatever its names and namespaces, a client is subscribed to a key if and only if its last
      operation on that key, not counting calls without a session, was a Subscribe. */
  lemma {:induction false} SubscribedIffLive(ops: seq<Op>, c: ClientId, key: string)
    ensures Subscribed(Run(Step, EMPTY, ops).index, c, key) <==> Live(ops, c, key)
  {
    if ops != [] {
      var front, last := ops[..|ops| - 1], ops[|ops| - 1];
      SubscribedIffLive(front, c, key);
      hide RowsSubscribed, RowsUnsubscribed, ListKey;
    }
  }

  /** In a run in which every client keeps to one namespace the same holds of what its row lists, and a client
      has a row, one, if and only if it is subscribed to something. */
  lemma {:induction false} ListedIffLive(home: ClientId -> string, ops: seq<Op>, c: ClientId)
    requires AtHome(home, ops)
    ensures forall item :: Listed(Run(Step, EMPTY, ops).rows, c, item) <==> Live(ops, c, home(c) + ":" + item)
    ensures (exists row <- Run(Step, EMPTY, ops).rows :: row.client == c) <==> (exists key :: Live(ops, c, key))
    ensures var rows := Run(Step, EMPTY, ops).rows;
      forall i, j :: 0 <= i < j < |rows| ==> rows[i].client != rows[j].client
  {
    AllRuns(home, ops);
    var s := Run(Step, EMPTY, ops);
    forall key ensures Subscribed(s.index, c, key) <==> Live(ops, c, key) { SubscribedIffLive(ops, c, key); }
    hide Run, Step, Live, Subscribed;
    forall row | row in s.rows && row.client == c ensures exists key :: Live(ops, c, key) {
      assert RowOk(row);
      assert row.subscriptions[0] in row.subscriptions;
      assert Listed(s.rows, c, row.subscriptions[0]);
      assert Live(ops, c, home(c) + ":" + row.subscriptions[0]);
    }
    if key :| Live(ops, c, key) {
      var item :| key == home(c) + ":" + item;
      assert Listed(s.rows, c, item);
    }
  }

  // Somebody has asked for the key, with a session or without, so it has an entry.
  predicate Entered(ops: seq<Op>, key: string)
  {
    exists op <- ops :: op.Subscribe? && op.ns + ":" + op.group + ":" + op.dataId == key
  }

  // The last operation of the client on a config of these names, in whatever namespace, that had an effect was a
  // Subscribe; an Unsubscribe has none on a key without an entry.
  ghost predicate LiveItem(ops: seq<Op>, c: ClientId, item: string)
  {
    if ops == [] then false
    else
      var front, last := ops[..|ops| - 1], ops[|ops| - 1];
      if last.client == c && last.group + ":" + last.dataId == item
        && (if last.Subscribe? then last.hasSession
            else Entered(front, last.ns + ":" + last.group + ":" + last.dataId))
      then last.Subscribe?
      else LiveItem(front, c, item)
  }

  // The namespace of the client's last subscription.
  function LastNamespace(ops: seq<Op>, c: ClientId): string
  {
    if ops == [] then ""
    else
      var last := ops[|ops| - 1];
      if last.client == c && last.Subscribe? && last.hasSession then last.ns
      else LastNamespace(ops[..|ops| - 1], c)
  }

  lemma {:induction false} EntriesStay(ops: seq<Op>, key: string)
    ensures key in Run(Step, EMPTY, ops).index <==> Entered(ops, key)
  {
    if ops != [] {
      var front, last := ops[..|ops| - 1], ops[|ops| - 1];
      EntriesStay(front, key);
      assert forall op :: op in ops <==> op in front || op == last;
      hide RowsSubscribed, RowsUnsubscribed, ListKey;
    }
  }

  /** After any run, whatever its names and namespaces, a row of the store lists exactly the items whose last
      operation by its client was a Subscribe, under the namespace the client subscribed in last. */
  lemma {:induction false} ListedIffLast(ops: seq<Op>)
    ensures var rows := Run(Step, EMPTY, ops).rows;
      && RowsOk(rows)
      && (forall c, item :: Listed(rows, c, item) <==> LiveItem(ops, c, item))
      && (forall row <- rows :: row.ns == LastNamespace(ops, row.client))
  {
    if ops != [] {
      var front, last := ops[..|ops| - 1], ops[|ops| - 1];
      var s, item := Run(Step, EMPTY, front), ListKey(last.group, last.dataId);
      ListedIffLast(front);
      EntriesStay(front, SubscriptionKey(last.ns, last.group, last.dataId));
      assert ':' in item by { ItemHasColon(last.group, last.dataId); }
      if last.Subscribe? && last.hasSession {
        SubscribeRows(s.rows, last.client, last.ns, item);
      } else if last.Unsubscribe? {
        UnsubscribeRows(s.rows, last.client, item);
      }
      hide RowsSubscribed, RowsUnsubscribed, RowsOk, Listed, Entered;
    }
  }

  // ---------- what LoadSubscribers builds ----------

  // Splitting a stored item and joining it again gives the key it was stored for.
  lemma Rejoin(ns: string, item: string)
    requires ':' in item
    ensures SubscriptionKey(ns, Parse(item).0, Parse(item).1) == ns + ":" + item
  {
    ParseAnything(item);
    KeyOfItem(ns, Parse(item).0, Parse(item).1);
  }

  lemma {:induction false} LoadRowBuilds(index: Index, row: Row, list: seq<string>, c: ClientId, key: string)
    requires forall item <- list :: ':' in item
    ensures Subscribed(LoadRow(index, row, list), c, key)
      <==> Subscribed(index, c, key) || (c == row.client && exists item <- list :: key == row.ns + ":" + item)
  {
    hide SubscriptionKey, Parse;
    if list != [] {
      var front, last := list[..|list| - 1], list[|list| - 1];
      LoadRowBuilds(index, row, front, c, key);
      Rejoin(row.ns, last);
      assert forall item :: item in list <==> item in front || item == last;
    }
  }

  lemma {:induction false} LoadBuilds(index: Index, listed: seq<Row>, c: ClientId, key: string)
    requires forall row <- listed :: forall item <- row.subscriptions :: ':' in item
    ensures Subscribed(Load(index, listed), c, key) <==>
      || Subscribed(index, c, key)
      || exists row <- listed :: c == row.client && exists item <- row.subscriptions :: key == row.ns + ":" + item
  {
    if listed != [] {
      var front, last := listed[..|listed| - 1], listed[|listed| - 1];
      LoadBuilds(index, front, c, key);
      LoadRowBuilds(Load(index, front), last, last.subscriptions, c, key);
      assert forall row :: row in listed <==> row in front || row == last;
    }
  }

  // The query lists the online rows, in some order.
  ghost predicate Lists(listed: seq<Row>, rows: seq<Row>) { forall row :: row in listed <==> row in rows && row.online }

  /** After any run in which every client keeps to one namespace, and for any names at all, loading the
      stored rows into a fresh engine subscribes exactly the clients that were subscribed, key by key. */
  lemma {:induction false} RebuildsIndex(
      home: ClientId -> string, ops: seq<Op>, listed: seq<Row>, c: ClientId, key: string)
    requires AtHome(home, ops) && Lists(listed, Run(Step, EMPTY, ops).rows)
    ensures Subscribed(Load(map[], listed), c, key) <==> Subscribed(Run(Step, EMPTY, ops).index, c, key)
  {
    AllRuns(home, ops);
    var s := Run(Step, EMPTY, ops);
    forall row | row in listed ensures RowOk(row) {}
    LoadBuilds(map[], listed, c, key);
    if Subscribed(s.index, c, key) {
      var item :| key == home(c) + ":" + item;
      assert Listed(s.rows, c, item);
      var row :| row in s.rows && row.client == c && item in row.subscriptions;
      assert row in listed && row.ns == home(c);
    }
    if Subscribed(Load(map[], listed), c, key) {
      var row :| row in listed && c == row.client && exists item <- row.subscriptions :: key == row.ns + ":" + item;
      var item :| item in row.subscriptions && key == row.ns + ":" + item;
      assert Listed(s.rows, c, item);
    }
  }

  /** So a fresh engine subscribes, after loading, exactly the clients whose last operation was a Subscribe. */
  lemma {:induction false} RebuildsLive(
      home: ClientId -> string, ops: seq<Op>, listed: seq<Row>, c: ClientId, key: string)
    requires AtHome(home, ops) && Lists(listed, Run(Step, EMPTY, ops).rows)
    ensures Subscribed(Load(map[], listed), c, key) <==> Live(ops, c, key)
  {
    RebuildsIndex(home, ops, listed, c, key);
    SubscribedIffLive(ops, c, key);
  }

  // ---------- the names recorded in the entries ----------

  // The client is a subscriber of an entry that carries these names.
  ghost predicate SubscribedTo(index: Index, client: ClientId, ns: string, group: string, dataId: string)
  {
    exists key <- index ::
      index[key].(subscribers := {}) == Info(ns, group, dataId, {}) && client in index[key].subscribers
  }

  /** The namespaces and the groups that a set of clients uses. */
  datatype Vocabulary = Vocabulary(namespaces: string -> bool, groups: string -> bool)

  ghost predicate Uses(v: Vocabulary, ops: seq<Op>)
  {
    forall op <- ops :: v.namespaces(op.ns) && v.groups(op.group)
  }

  // A namespace that another one could be mistaken for, together with a group.
  predicate Swallows(m: string, n: string, g: string) { n + ":" + g + ":" <= m + ":" }

  // Keys can be read back: no group has a colon, and no namespace goes on where another and a group end.
  ghost predicate Clear(v: Vocabulary)
  {
    && (forall n, g :: v.namespaces(n) && v.groups(g) ==> ':' !in g)
    && (forall n, m, g :: v.namespaces(n) && v.namespaces(m) && v.groups(g) ==> !Swallows(m, n, g))
  }

  lemma LongerSwallows(n: string, g: string, d: string, m: string, rest: string)
    requires n + ":" + g + ":" + d == m + ":" + rest && ':' !in g && |n| < |m|
    ensures Swallows(m, n, g)
  {
    var k, p := m + ":" + rest, n + ":" + g + ":";
    assert k == p + d;
    assert k[|m|] == ':';
    assert forall i :: |n| < i < |n| + 1 + |g| ==> k[i] == g[i - |n| - 1];
    assert p == k[..|p|] && m + ":" == k[..|m| + 1];
  }

  /** Within a clear vocabulary the key determines all three names. */
  lemma {:induction false} KeyDetermines(v: Vocabulary, n: string, g: string, d: string,
      m: string, h: string, e: string)
    requires Clear(v) && v.namespaces(n) && v.groups(g) && v.namespaces(m) && v.groups(h)
    requires SubscriptionKey(n, g, d) == SubscriptionKey(m, h, e)
    ensures n == m && g == h && d == e
  {
    var k := SubscriptionKey(n, g, d);
    assert k == n + ":" + ListKey(g, d) == m + ":" + ListKey(h, e);
    if |n| < |m| { LongerSwallows(n, g, d, m, ListKey(h, e)); }
    if |m| < |n| { LongerSwallows(m, h, e, n, ListKey(g, d)); }
    assert n == k[..|n|] && m == k[..|m|];
    assert ListKey(g, d) == k[|n| + 1..] && ListKey(h, e) == k[|m| + 1..];
    ParseAtColon(g, d);
    ParseAtColon(h, e);
  }

  // Every entry sits under the key of its own names, which are in the vocabulary.
  ghost predicate EntriesOk(v: Vocabulary, index: Index)
  {
    forall key <- index ::
      var e := index[key];
      key == SubscriptionKey(e.ns, e.group, e.dataId) && v.namespaces(e.ns) && v.groups(e.group)
  }

  ghost predicate RowsOver(v: Vocabulary, rows: seq<Row>) { forall row <- rows :: RowOver(v, row) }

  ghost predicate RowOver(v: Vocabulary, row: Row)
  {
    v.namespaces(row.ns) && forall item <- row.subscriptions :: v.groups(Parse(item).0)
  }

  lemma NamesAreTheKey(v: Vocabulary, index: Index, c: ClientId, ns: string, group: string, dataId: string)
    requires Clear(v) && EntriesOk(v, index) && v.namespaces(ns) && v.groups(group)
    ensures SubscribedTo(index, c, ns, group, dataId) <==> Subscribed(index, c, SubscriptionKey(ns, group, dataId))
  {
    var key := SubscriptionKey(ns, group, dataId);
    if key in index {
      var e := index[key];
      KeyDetermines(v, ns, group, dataId, e.ns, e.group, e.dataId);
    }
    hide SubscriptionKey, Clear;
  }

  lemma {:induction false} RunsKeepEntries(v: Vocabulary, ops: seq<Op>)
    requires Uses(v, ops)
    ensures EntriesOk(v, Run(Step, EMPTY, ops).index)
  {
    hide SubscriptionKey, RowsSubscribed, RowsUnsubscribed;
    if ops != [] {
      RunsKeepEntries(v, ops[..|ops| - 1]);
    }
  }

  lemma RowsSubscribedOver(v: Vocabulary, rows: seq<Row>, client: ClientId, ns: string, item: string)
    requires RowsOver(v, rows) && v.namespaces(ns) && v.groups(Parse(item).0)
    ensures RowsOver(v, RowsSubscribed(rows, client, ns, item))
    ensures RowsOver(v, RowsUnsubscribed(rows, client, item))
  {
    hide Parse;
    var i := RowOf(rows, client);
    if i < |rows| { assert RowOver(v, rows[i]); }
  }

  lemma {:induction false} RunsKeepRows(v: Vocabulary, ops: seq<Op>)
    requires Uses(v, ops) && Clear(v)
    ensures RowsOver(v, Run(Step, EMPTY, ops).rows)
  {
    if ops != [] {
      var front, last := ops[..|ops| - 1], ops[|ops| - 1];
      RunsKeepRows(v, front);
      assert last in ops;
      ParseAtColon(last.group, last.dataId);
      RowsSubscribedOver(v, Run(Step, EMPTY, front).rows, last.client, last.ns, ListKey(last.group, last.dataId));
      hide Added, Ensured, RowsSubscribed, RowsUnsubscribed, RowsOver, Clear;
    }
  }

  lemma {:induction false} LoadRowKeepsEntries(v: Vocabulary, index: Index, row: Row, list: seq<string>)
    requires EntriesOk(v, index) && v.namespaces(row.ns) && forall item <- list :: v.groups(Parse(item).0)
    ensures EntriesOk(v, LoadRow(index, row, list))
  {
    hide SubscriptionKey, Parse;
    if list != [] {
      LoadRowKeepsEntries(v, index, row, list[..|list| - 1]);
      assert list[|list| - 1] in list;
    }
  }

  lemma {:induction false} LoadKeepsEntries(v: Vocabulary, listed: seq<Row>)
    requires RowsOver(v, listed)
    ensures EntriesOk(v, Load(map[], listed))
  {
    hide LoadRow, Parse;
    if listed != [] {
      var last := listed[|listed| - 1];
      assert RowOver(v, last);
      LoadKeepsEntries(v, listed[..|listed| - 1]);
      LoadRowKeepsEntries(v, Load(map[], listed[..|listed| - 1]), last, last.subscriptions);
    }
  }

  lemma {:induction false} RebuildsNames(v: Vocabulary, home: ClientId -> string, ops: seq<Op>, listed: seq<Row>,
      c: ClientId, ns: string, group: string, dataId: string)
    requires Clear(v) && Uses(v, ops) && AtHome(home, ops) && Lists(listed, Run(Step, EMPTY, ops).rows)
    ensures SubscribedTo(Load(map[], listed), c, ns, group, dataId)
      <==> SubscribedTo(Run(Step, EMPTY, ops).index, c, ns, group, dataId)
  {
    RebuildsIndex(home, ops, listed, c, SubscriptionKey(ns, group, dataId));
    RunsKeepEntries(v, ops);
    RunsKeepRows(v, ops);
    LoadKeepsEntries(v, listed);
    hide Run, Step, Load, Clear, SubscriptionKey;
    if v.namespaces(ns) && v.groups(group) {
      NamesAreTheKey(v, Load(map[], listed), c, ns, group, dataId);
      NamesAreTheKey(v, Run(Step, EMPTY, ops).index, c, ns, group, dataId);
    }
  }

  const COLON_FREE := Vocabulary(n => ':' !in n, g => ':' !in g)

  lemma ColonFreeIsClear()
    ensures Clear(COLON_FREE)
  {
    forall n, m, g | ':' !in m ensures !Swallows(m, n, g) {
      var p := n + ":" + g + ":";
      assert p[|n|] == ':';
      assert |p| >= |n| + 2 && forall i :: 0 <= i < |m| ==> (m + ":")[i] == m[i];
    }
  }

  /** With colon-free namespace and group, the key determines all three names. */
  lemma {:induction false} KeyInjective(
      ns: string, group: string, dataId: string, ns': string, group': string, dataId': string)
    requires ':' !in ns && ':' !in ns' && ':' !in group && ':' !in group'
    requires SubscriptionKey(ns, group, dataId) == SubscriptionKey(ns', group', dataId')
    ensures ns == ns' && group == group' && dataId == dataId'
  {
    ColonFreeIsClear();
    KeyDetermines(COLON_FREE, ns, group, dataId, ns', group', dataId');
  }

  /** With colon-free namespaces and groups (dataId may contain colons) the rebuilt entries also carry the
      names the clients subscribed to: the relation of clients to configs is rebuilt exactly. */
  lemma {:induction false} RebuildsRelation(
      home: ClientId -> string, ops: seq<Op>, listed: seq<Row>, c: ClientId, ns: string, group: string, dataId: string)
    requires AtHome(home, ops) && (forall op <- ops :: ':' !in op.ns && ':' !in op.group)
    requires Lists(listed, Run(Step, EMPTY, ops).rows)
    ensures SubscribedTo(Load(map[], listed), c, ns, group, dataId)
      <==> SubscribedTo(Run(Step, EMPTY, ops).index, c, ns, group, dataId)
  {
    ColonFreeIsClear();
    RebuildsNames(COLON_FREE, home, ops, listed, c, ns, group, dataId);
  }

  // ---------- exactly when the index can be rebuilt ----------

  // Whatever order the stored rows are listed in, loading them subscribes the same clients to the same keys.
  ghost predicate Rebuilt(ops: seq<Op>)
  {
    forall listed, c, key :: Lists(listed, Run(Step, EMPTY, ops).rows) ==>
      (Subscribed(Load(map[], listed), c, key) <==> Subscribed(Run(Step, EMPTY, ops).index, c, key))
  }

  // Clients only use the namespaces they are allowed.
  ghost predicate Within(allowed: (ClientId, string) -> bool, ops: seq<Op>)
  {
    forall op <- ops :: allowed(op.client, op.ns)
  }

  ghost predicate OneNamespaceEach(allowed: (ClientId, string) -> bool)
  {
    forall c, n, m :: allowed(c, n) && allowed(c, m) ==> n == m
  }

  /** Every run in which clients keep to the namespaces they are allowed is rebuilt if and only if no client
      is allowed two. */
  lemma {:induction false} RebuiltIffOneNamespace(allowed: (ClientId, string) -> bool)
    ensures (forall ops :: Within(allowed, ops) ==> Rebuilt(ops)) <==> OneNamespaceEach(allowed)
  {
    if OneNamespaceEach(allowed) {
      forall ops | Within(allowed, ops) ensures Rebuilt(ops) { OneNamespaceRebuilds(allowed, ops); }
    } else {
      var c, n, m :| allowed(c, n) && allowed(c, m) && n != m;
      TwoNamespacesBreakRebuild(c, n, m);
      assert Within(allowed, TwoNamespaces(c, n, m)) && !Rebuilt(TwoNamespaces(c, n, m));
    }
  }

  lemma OneNamespaceRebuilds(allowed: (ClientId, string) -> bool, ops: seq<Op>)
    requires OneNamespaceEach(allowed) && Within(allowed, ops)
    ensures Rebuilt(ops)
  {
    var home: ClientId -> string := c => HomeIn(c, ops);
    forall op | op in ops ensures op.ns == home(op.client) {
      HomeOf(op.client, ops);
      assert allowed(op.client, op.ns);
    }
    forall listed, c, key | Lists(listed, Run(Step, EMPTY, ops).rows)
      ensures Subscribed(Load(map[], listed), c, key) <==> Subscribed(Run(Step, EMPTY, ops).index, c, key)
    {
      RebuildsIndex(home, ops, listed, c, key);
    }
  }

  // The first namespace a client uses in a run.
  function HomeIn(c: ClientId, ops: seq<Op>): string
  {
    if ops == [] then "" else if ops[0].client == c then ops[0].ns else HomeIn(c, ops[1..])
  }

  lemma {:induction false} HomeOf(c: ClientId, ops: seq<Op>)
    requires exists op <- ops :: op.client == c
    ensures exists op <- ops :: op.client == c && op.ns == HomeIn(c, ops)
  {
    if ops[0].client != c { HomeOf(c, ops[1..]); }
  }

  // A client subscribes to one item in each of two namespaces.
  function TwoNamespaces(c: ClientId, n: string, m: string): seq<Op>
  {
    [Subscribe(c, n, "g", "x", true), Subscribe(c, m, "g", "y", true)]
  }

  const ITEMS: seq<string> := ["g:x", "g:y"]

  lemma TwoNamespacesState(c: ClientId, n: string, m: string)
    requires n != m
    ensures var s := Run(Step, EMPTY, TwoNamespaces(c, n, m));
      && s.rows == [Row(c, m, ITEMS, true)]
      && Subscribed(s.index, c, n + ":" + "g:x") && !Subscribed(s.index, c, m + ":" + "g:x")
  {
    var ops := TwoNamespaces(c, n, m);
    assert ops == [] + [ops[0]] + [ops[1]];
    RunSnoc(Step, EMPTY, [], ops[0]);
    RunSnoc(Step, EMPTY, [ops[0]], ops[1]);
    KeyOfItem(n, "g", "x");
    KeyOfItem(m, "g", "y");
    assert ListKey("g", "x") == "g:x" && ListKey("g", "y") == "g:y";
    KeysDiffer(n, m);
    hide SubscriptionKey, ListKey;
    var s1 := Step(EMPTY, ops[0]);
    var row1 := Row(c, n, ["g:x"], true);
    assert s1.rows == [] + [row1] == [row1];
    assert "g:y" !in row1.subscriptions by { assert "g:y"[2] != "g:x"[2]; }
    assert ["g:x"] + ["g:y"] == ITEMS;
    assert RowsSubscribed([row1], c, m, "g:y") == [Row(c, m, ITEMS, true)];
  }

  lemma KeysDiffer(n: string, m: string)
    requires n != m
    ensures n + ":" + "g:x" != m + ":" + "g:x" && m + ":" + "g:y" != m + ":" + "g:x"
    ensures n + ":" + "g:x" != m + ":" + "g:y"
  {
    var k := m + ":" + "g:x";
    assert (n + ":" + "g:x")[..|n|] == n && k[..|m|] == m;
    assert k[|k| - 1] == 'x' && (m + ":" + "g:y")[|k| - 1] == 'y';
    assert (n + ":" + "g:x")[|n| + 3] == 'x';
    assert |n| == |m| ==> (m + ":" + "g:y")[|n| + 3] == 'y';
  }

  /** A client that subscribes in two namespaces is rebuilt under the second only: it gains a
      subscription it never made and loses one it has. */
  lemma {:induction false} TwoNamespacesBreakRebuild(c: ClientId, n: string, m: string)
    requires n != m
    ensures
      var s := Run(Step, EMPTY, TwoNamespaces(c, n, m));
      && Subscribed(s.index, c, n + ":" + "g:x") && !Subscribed(Load(map[], s.rows), c, n + ":" + "g:x")
      && !Subscribed(s.index, c, m + ":" + "g:x") && Subscribed(Load(map[], s.rows), c, m + ":" + "g:x")
    ensures !Rebuilt(TwoNamespaces(c, n, m))
  {
    TwoNamespacesState(c, n, m);
    KeysDiffer(n, m);
    hide Step, Run;
    var s := Run(Step, EMPTY, TwoNamespaces(c, n, m));
    var rows := [Row(c, m, ITEMS, true)];
    assert "g:x"[1] == ':' && "g:y"[1] == ':';
    LoadBuilds(map[], rows, c, n + ":" + "g:x");
    LoadBuilds(map[], rows, c, m + ":" + "g:x");
    assert "g:x" == ITEMS[0] && rows[0] == Row(c, m, ITEMS, true);
    assert Lists(s.rows, s.rows);
  }

  // ---------- exactly when the names can be rebuilt ----------

  ghost predicate NamesRebuilt(ops: seq<Op>)
  {
    forall listed, c, ns, group, dataId :: Lists(listed, Run(Step, EMPTY, ops).rows) ==>
      (SubscribedTo(Load(map[], listed), c, ns, group, dataId)
       <==> SubscribedTo(Run(Step, EMPTY, ops).index, c, ns, group, dataId))
  }

  lemma ClearRebuilds(v: Vocabulary, home: ClientId -> string, ops: seq<Op>)
    requires Clear(v) && AtHome(home, ops) && Uses(v, ops)
    ensures NamesRebuilt(ops)
  {
    hide Clear, AtHome, Uses, Lists, Load, SubscribedTo, Run, Step;
    forall listed, c, ns, group, dataId | Lists(listed, Run(Step, EMPTY, ops).rows)
      ensures SubscribedTo(Load(map[], listed), c, ns, group, dataId)
        <==> SubscribedTo(Run(Step, EMPTY, ops).index, c, ns, group, dataId)
    {
      RebuildsNames(v, home, ops, listed, c, ns, group, dataId);
    }
  }

  // A run of one subscription.
  lemma OneSubscription(c: ClientId, ns: string, group: string, dataId: string)
    ensures var s := Run(Step, EMPTY, [Subscribe(c, ns, group, dataId, true)]);
      && s.index == map[SubscriptionKey(ns, group, dataId) := Info(ns, group, dataId, {c})]
      && s.rows == [Row(c, ns, [ListKey(group, dataId)], true)]
  {
    var op := Subscribe(c, ns, group, dataId, true);
    assert [op] == [] + [op];
    RunSnoc(Step, EMPTY, [], op);
    hide SubscriptionKey, ListKey, Run;
    assert RowsSubscribed([], c, ns, ListKey(group, dataId)) == [Row(c, ns, [ListKey(group, dataId)], true)];
    var none: set<ClientId> := {};
    assert none + {c} == {c};
  }

  /** A group with a colon is rebuilt under other names, though under the same key. */
  lemma {:induction false} ColonInGroupChangesNames(c: ClientId, ns: string, group: string, dataId: string)
    requires ':' in group
    ensures
      var s := Run(Step, EMPTY, [Subscribe(c, ns, group, dataId, true)]);
      && SubscribedTo(s.index, c, ns, group, dataId) && !SubscribedTo(Load(map[], s.rows), c, ns, group, dataId)
    ensures !NamesRebuilt([Subscribe(c, ns, group, dataId, true)])
  {
    OneSubscription(c, ns, group, dataId);
    var s := Run(Step, EMPTY, [Subscribe(c, ns, group, dataId, true)]);
    var v := Vocabulary(n => true, g => ':' !in g);
    ParseAnything(ListKey(group, dataId));
    assert RowsOver(v, s.rows);
    LoadKeepsEntries(v, s.rows);
    var loaded, key := Load(map[], s.rows), SubscriptionKey(ns, group, dataId);
    assert Lists(s.rows, s.rows);
    hide Load, Run, Step, SubscriptionKey, ListKey, RowsOver, Parse;
    assert key in s.index && c in s.index[key].subscribers;
    assert SubscribedTo(s.index, c, ns, group, dataId);
    assert !SubscribedTo(loaded, c, ns, group, dataId);
  }

  // What follows n and g in the key of m, g and nothing.
  function Rest(n: string, m: string, g: string): string
    requires Swallows(m, n, g)
  {
    (m + ":" + g + ":")[|n| + |g| + 2..]
  }

  lemma SameKey(n: string, m: string, g: string)
    requires Swallows(m, n, g)
    ensures SubscriptionKey(n, g, Rest(n, m, g)) == SubscriptionKey(m, g, "") && n != m
  {
    var k, p := m + ":" + g + ":", n + ":" + g + ":";
    assert m + ":" <= k && p <= k;
    assert k == p + k[|p|..];
    assert m + ":" + g + ":" + "" == k;
  }

  // Two clients in two namespaces, whose configs have the same key.
  function Clashing(n: string, m: string, g: string): seq<Op>
    requires Swallows(m, n, g)
  {
    [Subscribe("1", n, g, Rest(n, m, g), true), Subscribe("2", m, g, "", true)]
  }

  lemma ClashingState(n: string, m: string, g: string)
    requires Swallows(m, n, g)
    ensures var s := Run(Step, EMPTY, Clashing(n, m, g));
      && s.index == map[SubscriptionKey(m, g, "") := Info(n, g, Rest(n, m, g), {"1", "2"})]
      && s.rows == [Row("1", n, [ListKey(g, Rest(n, m, g))], true), Row("2", m, [ListKey(g, "")], true)]
  {
    var ops, d := Clashing(n, m, g), Rest(n, m, g);
    SameKey(n, m, g);
    OneSubscription("1", n, g, d);
    assert ops == [ops[0]] + [ops[1]];
    RunSnoc(Step, EMPTY, [ops[0]], ops[1]);
    hide SubscriptionKey, ListKey, Run, Rest;
    var row := Row("1", n, [ListKey(g, d)], true);
    assert "1" != "2" by { assert "1"[0] != "2"[0]; }
    assert RowsSubscribed([row], "2", m, ListKey(g, "")) == [row, Row("2", m, [ListKey(g, "")], true)];
    assert {"1"} + {"2"} == {"1", "2"};
  }

  lemma LoadOne(row: Row, item: string)
    requires row.subscriptions == [item]
    ensures Load(map[], [row]) == Added(map[], row.ns, Parse(item).0, Parse(item).1, row.client)
  {
    assert [row][..0] == [] && [item][..0] == [];
    assert Load(map[], []) == map[];
    assert LoadRow(map[], row, []) == map[];
  }

  lemma LoadTwo(a: Row, b: Row, item: string)
    requires b.subscriptions == [item]
    ensures Load(map[], [a, b]) == Added(Load(map[], [a]), b.ns, Parse(item).0, Parse(item).1, b.client)
  {
    assert [a, b][..1] == [a] && [item][..0] == [];
    assert LoadRow(Load(map[], [a]), b, []) == Load(map[], [a]);
  }

  /** A namespace that swallows another and a colon-free group takes over its entry when its row is listed
      first: the names are rebuilt in one order of the rows and not in the other. */
  lemma {:induction false} SwallowingChangesNames(n: string, m: string, g: string)
    requires Swallows(m, n, g) && ':' !in g
    ensures !NamesRebuilt(Clashing(n, m, g))
  {
    ClashingState(n, m, g);
    SameKey(n, m, g);
    var s, d := Run(Step, EMPTY, Clashing(n, m, g)), Rest(n, m, g);
    var listed := [s.rows[1], s.rows[0]];
    assert Lists(listed, s.rows);
    LoadOne(s.rows[1], ListKey(g, ""));
    LoadTwo(s.rows[1], s.rows[0], ListKey(g, d));
    ParseAtColon(g, "");
    ParseAtColon(g, d);
    var loaded, key := Load(map[], listed), SubscriptionKey(m, g, "");
    hide Load, Run, Step, SubscriptionKey, Rest, Parse;
    assert key in loaded && loaded[key].(subscribers := {}) == Info(m, g, "", {}) && "2" in loaded[key].subscribers;
    assert SubscribedTo(loaded, "2", m, g, "");
    assert !SubscribedTo(s.index, "2", m, g, "");
  }

  // Every run over the vocabulary, each client keeping to one namespace, is rebuilt with its names.
  ghost predicate AlwaysNamed(v: Vocabulary)
  {
    forall home, ops :: AtHome(home, ops) && Uses(v, ops) ==> NamesRebuilt(ops)
  }

  lemma ColonBreaks(v: Vocabulary, n: string, g: string)
    requires v.namespaces(n) && v.groups(g) && ':' in g
    ensures !AlwaysNamed(v)
  {
    var home: ClientId -> string, ops := _ => n, [Subscribe("", n, g, "", true)];
    ColonInGroupChangesNames("", n, g, "");
    hide NamesRebuilt;
    assert AtHome(home, ops) && Uses(v, ops);
  }

  lemma SwallowingBreaks(v: Vocabulary, n: string, m: string, g: string)
    requires v.namespaces(n) && v.namespaces(m) && v.groups(g) && Swallows(m, n, g) && ':' !in g
    ensures !AlwaysNamed(v)
  {
    var home: ClientId -> string, ops := c => if c == "1" then n else m, Clashing(n, m, g);
    SwallowingChangesNames(n, m, g);
    hide NamesRebuilt, Swallows, Rest;
    assert "1" != "2" by { assert "1"[0] != "2"[0]; }
    assert AtHome(home, ops) && Uses(v, ops);
  }

  /** Every run over a vocabulary, each client keeping to one namespace, is rebuilt with its names if and
      only if the vocabulary is clear: no group in it has a colon, and no namespace swallows another one
      and a group. */
  lemma {:induction false} NamesRebuiltIff(v: Vocabulary)
    ensures AlwaysNamed(v) <==> Clear(v)
  {
    if Clear(v) {
      forall home: ClientId -> string, ops | AtHome(home, ops) && Uses(v, ops) ensures NamesRebuilt(ops) {
        ClearRebuilds(v, home, ops);
      }
    } else if n, g :| v.namespaces(n) && v.groups(g) && ':' in g {
      ColonBreaks(v, n, g);
    } else {
      var n, m, g :| v.namespaces(n) && v.namespaces(m) && v.groups(g) && Swallows(m, n, g);
      SwallowingBreaks(v, n, m, g);
    }
    hide NamesRebuilt, AtHome, Uses;
  }
}
