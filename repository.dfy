/**
 * The repository over the cached tables. The first half states what each
 * operation does to the tables, as functions, and proves the properties
 * the cache relies on; the class `Store` below performs the operations
 * step by step on four mutable maps and is proved against those functions.
 */
module Repository {
  import opened Wrappers
  import opened Decimals
  import opened Dates
  import opened Values
  import opened Models

  // ---------------------------------------------------------------------
  // Users

  /** `upsert_user`: a new user is created; an existing one takes the new
      token, and keeps its name when the new name is `None` or "". */
  function UserUpserted(users: map<string, User>, id: string, token: string, name: Option<string>): (r: map<string, User>)
    ensures r.Keys == users.Keys + {id}
    ensures r[id].id == id && r[id].accessToken == token
    ensures id !in users ==> r[id].name == name
    ensures id in users ==> r[id].name == (if name.Some? && name.value != "" then name else users[id].name)
    ensures forall k :: k in users && k != id ==> r[k] == users[k]
  {
    var kept := if id in users && !(name.Some? && name.value != "") then users[id].name else name;
    users[id := User(id, token, kept)]
  }

  /** The users a token lookup matches: `access_token` is indexed but not
      unique, so there may be several. */
  function TokenHolders(users: map<string, User>, token: string): (ids: set<string>)
    ensures forall k :: k in ids <==> k in users && users[k].accessToken == token
  {
    set k | k in users && users[k].accessToken == token
  }

  lemma TwoMembers(s: set<string>, k: string, j: string)
    requires k in s && j in s && k != j
    ensures |s| >= 2
  {
    var t := s - {k};
    assert j in t && s == t + {k};
  }

  /** `scalar_one_or_none`: no row, the one row, or an error for several. */
  datatype Lookup = NoUser | OneUser(user: User) | ManyUsers

  /** After an upsert the new token finds the upserted user, together with
      any other user that already held that token; every other token loses
      that user. */
  lemma UpsertedTokenHolders(users: map<string, User>, id: string, token: string, name: Option<string>, other: string)
    requires other != token
    ensures TokenHolders(UserUpserted(users, id, token, name), token) == TokenHolders(users, token) + {id}
    ensures TokenHolders(UserUpserted(users, id, token, name), other) == TokenHolders(users, other) - {id}
  {
    var r := UserUpserted(users, id, token, name);
    assert TokenHolders(r, token) == TokenHolders(users, token) + {id};
    assert TokenHolders(r, other) == TokenHolders(users, other) - {id};
  }

  /** When no other user holds the token, looking it up after the upsert
      yields exactly the upserted user. */
  lemma UpsertedTokenUnique(users: map<string, User>, id: string, token: string, name: Option<string>)
    requires TokenHolders(users, token) <= {id}
    ensures TokenHolders(UserUpserted(users, id, token, name), token) == {id}
  {
    UpsertedTokenHolders(users, id, token, name, token + "?");
  }

  /** Upserting the same user twice with the same arguments changes nothing
      the second time. */
  lemma UserUpsertIdempotent(users: map<string, User>, id: string, token: string, name: Option<string>)
    ensures UserUpserted(UserUpserted(users, id, token, name), id, token, name) == UserUpserted(users, id, token, name)
  {
  }

  // ---------------------------------------------------------------------
  // Accounts

  /** The `institution` column: the `"id"` of a dict (also of the `{}` that
      a missing value falls back to), otherwise the value itself. */
  function InstitutionOf(p: Payload): (r: Option<string>)
    ensures Get(p, "institution").Obj? ==> r == Text(Get(Get(p, "institution").fields, "id"))
    ensures !Truthy(Get(p, "institution")) ==> r == None
    ensures Truthy(Get(p, "institution")) && Get(p, "institution").Str? ==> r == Text(Get(p, "institution"))
  {
    var v := Get(p, "institution");
    if !Truthy(v) then None              // `{}.get("id")`
    else if v.Obj? then Text(Get(v.fields, "id"))
    else Text(v)
  }

  /** The `last_four` column: `last_four`, or `lastFour` when that is
      missing or falsy. */
  function LastFourOf(p: Payload): (r: Option<string>)
    ensures Truthy(Get(p, "last_four")) ==> r == Text(Get(p, "last_four"))
    ensures !Truthy(Get(p, "last_four")) ==> r == Text(Get(p, "lastFour"))
  {
    Text(Or(Get(p, "last_four"), Get(p, "lastFour")))
  }

  /** The account row `upsert_account` writes; creating and updating write
      the same columns. */
  function AccountFromPayload(id: string, userId: string, p: Payload): (a: Account)
    ensures a.id == id && a.userId == userId && a.raw == p
  {
    Account(id, userId, Text(Get(p, "name")), InstitutionOf(p), LastFourOf(p),
      Text(Get(p, "type")), Text(Get(p, "subtype")), Text(Get(p, "currency")), p)
  }

  /** `upsert_account`: an error, and no change, when the payload has no
      usable id; otherwise the account is created or overwritten, and
      linked to `userId`. A falsy id raises `ValueError`. A truthy id that
      is not a string is refused as well, by the model's choice; the
      program would store a number as text. */
  function AccountUpserted(t: Tables, userId: string, p: Payload): (r: Result<Tables, string>)
    ensures r.Err? <==> IdOf(Get(p, "id")).None?
    ensures !Truthy(Get(p, "id")) ==> r == Err("Account payload missing id")
    ensures Get(p, "id").Str? ==> (r.Ok? <==> Truthy(Get(p, "id")))
    ensures r.Ok? ==> var id := Get(p, "id").s;
      && id in r.value.accounts && r.value.accounts[id].userId == userId && r.value.accounts[id].raw == p
      && (forall k :: k in t.accounts && k != id ==> k in r.value.accounts && r.value.accounts[k] == t.accounts[k])
      && r.value.accounts.Keys == t.accounts.Keys + {id}
    ensures r.Ok? ==> r.value == t.(accounts := t.accounts[IdOf(Get(p, "id")).value := AccountFromPayload(IdOf(Get(p, "id")).value, userId, p)])
  {
    match IdOf(Get(p, "id"))
    case None => Err("Account payload missing id")
    case Some(id) => Ok(t.(accounts := t.accounts[id := AccountFromPayload(id, userId, p)]))
  }

  /** Re-enrolment moves an account to the latest user: it leaves the
      previous owner's accounts and joins the new owner's, and no other
      user's accounts change. */
  lemma AccountRelinked(t: Tables, userId: string, p: Payload, other: string)
    requires AccountUpserted(t, userId, p).Ok? && other != userId
    ensures AccountsOf(AccountUpserted(t, userId, p).value, userId) == AccountsOf(t, userId) + {IdOf(Get(p, "id")).value}
    ensures AccountsOf(AccountUpserted(t, userId, p).value, other) == AccountsOf(t, other) - {IdOf(Get(p, "id")).value}
  {
    var r := AccountUpserted(t, userId, p).value;
    assert AccountsOf(r, userId) == AccountsOf(t, userId) + {IdOf(Get(p, "id")).value};
    assert AccountsOf(r, other) == AccountsOf(t, other) - {IdOf(Get(p, "id")).value};
  }

  /** Last write wins: a second upsert of the same account id replaces
      every column the first one wrote, owner included. */
  lemma AccountLastWriteWins(t: Tables, u1: string, p1: Payload, u2: string, p2: Payload)
    requires AccountUpserted(t, u1, p1).Ok?
    requires IdOf(Get(p2, "id")) == IdOf(Get(p1, "id"))
    ensures AccountUpserted(AccountUpserted(t, u1, p1).value, u2, p2) == AccountUpserted(t, u2, p2)
  {
    var id := IdOf(Get(p1, "id")).value;
    assert t.accounts[id := AccountFromPayload(id, u1, p1)][id := AccountFromPayload(id, u2, p2)]
      == t.accounts[id := AccountFromPayload(id, u2, p2)];
  }

  lemma AccountUpsertConsistent(t: Tables, userId: string, p: Payload)
    requires Consistent(t) && userId in t.users
    ensures AccountUpserted(t, userId, p).Ok? ==> Consistent(AccountUpserted(t, userId, p).value)
  {
  }

  // ---------------------------------------------------------------------
  // Balances

  /** The balance row `update_balance` writes; creating and updating write
      the same columns, and both stamp the current time. */
  function BalanceFromPayload(accountId: string, p: Payload, now: Instant): (b: Balance)
    ensures b.accountId == accountId && b.raw == p && b.cachedAt == now
    ensures b.available == AsDecimal(Get(p, "available")) && b.ledger == AsDecimal(Get(p, "ledger"))
  {
    Balance(accountId, AsDecimal(Get(p, "available")), AsDecimal(Get(p, "ledger")), Text(Get(p, "currency")), p, now)
  }

  function BalanceUpdated(t: Tables, accountId: string, p: Payload, now: Instant): (r: Tables)
    ensures r.users == t.users && r.accounts == t.accounts && r.transactions == t.transactions
  {
    t.(balances := t.balances[accountId := BalanceFromPayload(accountId, p, now)])
  }

  /** A balance update adds a row only when the account had none and
      touches no other account's balance. */
  lemma BalanceAtMostOne(t: Tables, accountId: string, p: Payload, now: Instant)
    ensures BalanceUpdated(t, accountId, p, now).balances.Keys == t.balances.Keys + {accountId}
    ensures |BalanceUpdated(t, accountId, p, now).balances| == |t.balances| + (if accountId in t.balances then 0 else 1)
    ensures forall k :: k in t.balances && k != accountId ==> BalanceUpdated(t, accountId, p, now).balances[k] == t.balances[k]
  {
    MapUpdate(t.balances, accountId, BalanceFromPayload(accountId, p, now));
  }

  /** Storing under a key adds that key, and a row only when the key is
      new; no other entry changes. */
  lemma MapUpdate<V>(m: map<string, V>, k: string, v: V)
    ensures m[k := v].Keys == m.Keys + {k}
    ensures |m[k := v]| == |m| + (if k in m then 0 else 1)
    ensures forall j :: j in m && j != k ==> m[k := v][j] == m[j]
  {
    if k in m {
      assert m[k := v].Keys == m.Keys;
    }
  }

  /** A second update of the same account overwrites the first in place. */
  lemma BalanceOverwritten(t: Tables, accountId: string, p: Payload, now: Instant, p2: Payload, later: Instant)
    ensures BalanceUpdated(BalanceUpdated(t, accountId, p, now), accountId, p2, later) == BalanceUpdated(t, accountId, p2, later)
  {
    MapTwice(t.balances, accountId, BalanceFromPayload(accountId, p, now), BalanceFromPayload(accountId, p2, later));
  }

  /** A second store under a key replaces the first. */
  lemma MapTwice<V>(m: map<string, V>, k: string, v1: V, v2: V)
    ensures m[k := v1][k := v2] == m[k := v2]
  {
  }

  lemma BalanceUpdateConsistent(t: Tables, accountId: string, p: Payload, now: Instant)
    requires Consistent(t) && accountId in t.accounts
    ensures Consistent(BalanceUpdated(t, accountId, p, now))
  {
  }

  // ---------------------------------------------------------------------
  // Transactions

  /** The transaction row `replace_transactions` writes for a payload.
      An existing row is updated in place and keeps its owner. */
  function TxFromPayload(id: string, owner: string, p: Payload, now: Instant): (x: Transaction)
    ensures x.id == id && x.accountId == owner && x.raw == p && x.cachedAt == now
    ensures x.amount == AsDecimal(Get(p, "amount")) && x.date == AsDate(Get(p, "date"))
  {
    Transaction(id, owner, Text(Get(p, "description")), AsDecimal(Get(p, "amount")), AsDate(Get(p, "date")),
      AsDecimal(Get(p, "running_balance")), Text(Get(p, "type")), p, now)
  }

  /** The id a transaction payload is keyed by, when it has one. */
  function PayloadId(p: Payload): Option<string> {
    IdOf(Get(p, "id"))
  }

  /** Whether `replace_transactions` gets through its loop: every
      payload's id is missing, falsy or a string. A truthy id of another
      kind fails the request: a list or a dict is unhashable at the `seen`
      check (a `TypeError`). A number or a boolean is refused by the
      model's choice; the program would store it as text. */
  predicate IdsStorable(ps: seq<Payload>) {
    forall i :: 0 <= i < |ps| ==> !Truthy(Get(ps[i], "id")) || Get(ps[i], "id").Str?
  }

  /** Where the loop gets through, the payloads the model skips are exactly
      those whose id is falsy (`not tx_id`). */
  lemma StorableSkips(ps: seq<Payload>, i: nat)
    requires IdsStorable(ps) && i < |ps|
    ensures PayloadId(ps[i]).None? <==> !Truthy(Get(ps[i], "id"))
  {
  }

  /** A batch: payloads paired with their ids. */
  type Batch = seq<(string, Payload)>

  function BatchIds(b: Batch): (ids: set<string>)
    ensures forall i :: 0 <= i < |b| ==> b[i].0 in ids
    ensures forall k :: k in ids ==> exists i :: 0 <= i < |b| && b[i].0 == k
  {
    set i | 0 <= i < |b| :: b[i].0
  }

  predicate DistinctIds(b: Batch) {
    forall i, j :: 0 <= i < j < |b| ==> b[i].0 != b[j].0
  }

  /** The batch `replace_transactions` keeps: payloads with a usable id, each
      id once, from its first occurrence, in input order. */
  function Dedup(ps: seq<Payload>): (b: Batch)
    ensures DistinctIds(b)
    ensures forall i :: 0 <= i < |b| ==> PayloadId(b[i].1) == Some(b[i].0)
  {
    if ps == [] then []
    else
      var rest := Dedup(ps[..|ps| - 1]);
      var p := ps[|ps| - 1];
      match PayloadId(p)
      case None => rest
      case Some(id) => if id in BatchIds(rest) then rest else rest + [(id, p)]
  }

  /** The ids of the payloads that have one. */
  function PayloadIds(ps: seq<Payload>): (ids: set<string>)
    ensures forall i :: 0 <= i < |ps| && PayloadId(ps[i]).Some? ==> PayloadId(ps[i]).value in ids
  {
    set i | 0 <= i < |ps| && PayloadId(ps[i]).Some? :: PayloadId(ps[i]).value
  }

  /** The position of the first payload with id `id`, or `|ps|`. */
  function FirstWith(ps: seq<Payload>, id: string): (n: nat)
    ensures n <= |ps| && (n < |ps| ==> PayloadId(ps[n]) == Some(id))
    ensures forall j :: 0 <= j < n ==> PayloadId(ps[j]) != Some(id)
  {
    if ps == [] then 0 else if PayloadId(ps[0]) == Some(id) then 0 else 1 + FirstWith(ps[1..], id)
  }

  lemma {:induction false} FirstWithAppend(ps: seq<Payload>, p: Payload, id: string)
    ensures FirstWith(ps + [p], id) == (if FirstWith(ps, id) < |ps| || PayloadId(p) == Some(id) then FirstWith(ps, id) else |ps| + 1)
  {
    if ps != [] {
      assert (ps + [p])[1..] == ps[1..] + [p];
      FirstWithAppend(ps[1..], p, id);
    }
  }

  /** One step of `Dedup`: the last payload is kept exactly when it has an
      id not kept before. */
  lemma DedupLast(init: seq<Payload>, p: Payload)
    ensures Dedup(init + [p]) ==
      if PayloadId(p).Some? && PayloadId(p).value !in BatchIds(Dedup(init)) then Dedup(init) + [(PayloadId(p).value, p)]
      else Dedup(init)
  {
    var ps := init + [p];
    assert ps[..|ps| - 1] == init && ps[|ps| - 1] == p;
  }

  lemma BatchIdsAppend(b: Batch, e: (string, Payload))
    ensures BatchIds(b + [e]) == BatchIds(b) + {e.0}
  {
    var c := b + [e];
    assert c[|b|] == e;
    forall k | k in BatchIds(c) ensures k in BatchIds(b) + {e.0} {
      var i :| 0 <= i < |c| && c[i].0 == k;
      if i < |b| { assert c[i] == b[i]; }
    }
    forall i | 0 <= i < |b| ensures c[i] == b[i] { }
  }

  lemma PayloadIdsAppend(ps: seq<Payload>, p: Payload)
    ensures PayloadIds(ps + [p]) == PayloadIds(ps) + (if PayloadId(p).Some? then {PayloadId(p).value} else {})
  {
    var q := ps + [p];
    assert q[|ps|] == p;
    forall k | k in PayloadIds(q) ensures k in PayloadIds(ps) + (if PayloadId(p).Some? then {PayloadId(p).value} else {}) {
      var i :| 0 <= i < |q| && PayloadId(q[i]).Some? && PayloadId(q[i]).value == k;
      if i < |ps| { assert q[i] == ps[i]; }
    }
    forall k | k in PayloadIds(ps) ensures k in PayloadIds(q) {
      var i :| 0 <= i < |ps| && PayloadId(ps[i]).Some? && PayloadId(ps[i]).value == k;
      assert q[i] == ps[i];
    }
  }

  /** An id's first position is before the end exactly when the id occurs. */
  lemma FirstWithOccurs(ps: seq<Payload>, id: string)
    ensures FirstWith(ps, id) < |ps| <==> id in PayloadIds(ps)
  {
    if id in PayloadIds(ps) {
      var i :| 0 <= i < |ps| && PayloadId(ps[i]).Some? && PayloadId(ps[i]).value == id;
      assert FirstWith(ps, id) <= i;
    }
  }

  /** Deduplication keeps exactly the ids that occur. */
  lemma {:induction false} DedupIds(ps: seq<Payload>)
    ensures BatchIds(Dedup(ps)) == PayloadIds(ps)
  {
    if ps != [] {
      var init, p := ps[..|ps| - 1], ps[|ps| - 1];
      assert ps == init + [p];
      DedupIds(init);
      DedupLast(init, p);
      PayloadIdsAppend(init, p);
      if PayloadId(p).Some? && PayloadId(p).value !in BatchIds(Dedup(init)) {
        BatchIdsAppend(Dedup(init), (PayloadId(p).value, p));
      }
    }
  }

  /** Each kept id carries the payload of its first occurrence. */
  lemma DedupFirst(ps: seq<Payload>)
    ensures forall i :: 0 <= i < |Dedup(ps)| ==>
      FirstWith(ps, Dedup(ps)[i].0) < |ps| && Dedup(ps)[i].1 == ps[FirstWith(ps, Dedup(ps)[i].0)]
  {
    forall i | 0 <= i < |Dedup(ps)|
      ensures FirstWith(ps, Dedup(ps)[i].0) < |ps| && Dedup(ps)[i].1 == ps[FirstWith(ps, Dedup(ps)[i].0)]
    {
      DedupFirstAt(ps, i);
    }
  }

  lemma {:induction false} DedupFirstAt(ps: seq<Payload>, i: nat)
    requires i < |Dedup(ps)|
    ensures FirstWith(ps, Dedup(ps)[i].0) < |ps| && Dedup(ps)[i].1 == ps[FirstWith(ps, Dedup(ps)[i].0)]
  {
    var init, p := ps[..|ps| - 1], ps[|ps| - 1];
    assert ps == init + [p];
    DedupLast(init, p);
    var rest := Dedup(init);
    if i < |rest| {
      DedupFirstAt(init, i);
      KeptFirst(init, p, rest[i].0);
    } else {
      NewFirst(init, p, PayloadId(p).value);
    }
  }

  /** Kept ids appear in the order of their first occurrence. */
  lemma DedupOrder(ps: seq<Payload>)
    ensures forall i, j :: 0 <= i < j < |Dedup(ps)| ==> FirstWith(ps, Dedup(ps)[i].0) < FirstWith(ps, Dedup(ps)[j].0)
  {
    forall i, j | 0 <= i < j < |Dedup(ps)|
      ensures FirstWith(ps, Dedup(ps)[i].0) < FirstWith(ps, Dedup(ps)[j].0)
    {
      DedupOrderAt(ps, i, j);
    }
  }

  lemma {:induction false} DedupOrderAt(ps: seq<Payload>, i: nat, j: nat)
    requires i < j < |Dedup(ps)|
    ensures FirstWith(ps, Dedup(ps)[i].0) < FirstWith(ps, Dedup(ps)[j].0)
  {
    var init, p := ps[..|ps| - 1], ps[|ps| - 1];
    assert ps == init + [p];
    DedupLast(init, p);
    var rest := Dedup(init);
    KeptFirst(init, p, rest[i].0);
    if j < |rest| {
      DedupOrderAt(init, i, j);
      KeptFirst(init, p, rest[j].0);
    } else {
      NewFirst(init, p, PayloadId(p).value);
    }
  }

  /** Appending a payload leaves the first position of a kept id alone. */
  lemma KeptFirst(init: seq<Payload>, p: Payload, k: string)
    requires k in BatchIds(Dedup(init))
    ensures FirstWith(init + [p], k) == FirstWith(init, k) < |init|
  {
    DedupIds(init);
    FirstWithOccurs(init, k);
    FirstWithAppend(init, p, k);
  }

  /** An id first seen in the appended payload first occurs there. */
  lemma NewFirst(init: seq<Payload>, p: Payload, id: string)
    requires PayloadId(p) == Some(id) && id !in BatchIds(Dedup(init))
    ensures FirstWith(init + [p], id) == |init|
  {
    DedupIds(init);
    FirstWithOccurs(init, id);
    FirstWithAppend(init, p, id);
  }

  /** The owner a batch row gets: its existing owner, or the account being
      refreshed for a new row. */
  function OwnerOf(txs: map<string, Transaction>, id: string, accountId: string): string {
    if id in txs then txs[id].accountId else accountId
  }

  /** The first loop of `replace_transactions`: each kept payload updates
      its row in place or adds one for the account. */
  function UpsertAll(txs: map<string, Transaction>, b: Batch, accountId: string, now: Instant): map<string, Transaction> {
    if b == [] then txs
    else
      var m := UpsertAll(txs, b[..|b| - 1], accountId, now);
      var id := b[|b| - 1].0;
      m[id := TxFromPayload(id, OwnerOf(m, id, accountId), b[|b| - 1].1, now)]
  }

  /** One step of `UpsertAll` on a batch whose last id is new. */
  lemma UpsertAllLast(txs: map<string, Transaction>, b: Batch, accountId: string, now: Instant)
    requires DistinctIds(b) && b != []
    ensures DistinctIds(b[..|b| - 1]) && b[|b| - 1].0 !in BatchIds(b[..|b| - 1])
    ensures BatchIds(b) == BatchIds(b[..|b| - 1]) + {b[|b| - 1].0}
    ensures forall i :: 0 <= i < |b| - 1 ==> b[..|b| - 1][i] == b[i]
  {
    var init, e := b[..|b| - 1], b[|b| - 1];
    assert b == init + [e];
    BatchIdsAppend(init, e);
    forall j | 0 <= j < |init| ensures init[j].0 != e.0 {
      assert init[j] == b[j];
    }
  }

  lemma {:induction false} UpsertAllKeys(txs: map<string, Transaction>, b: Batch, accountId: string, now: Instant)
    requires DistinctIds(b)
    ensures UpsertAll(txs, b, accountId, now).Keys == txs.Keys + BatchIds(b)
  {
    if b != [] {
      UpsertAllLast(txs, b, accountId, now);
      UpsertAllKeys(txs, b[..|b| - 1], accountId, now);
    }
  }

  /** Rows outside the batch are untouched. */
  lemma {:induction false} UpsertAllOthers(txs: map<string, Transaction>, b: Batch, accountId: string, now: Instant, k: string)
    requires DistinctIds(b) && k in txs && k !in BatchIds(b)
    ensures k in UpsertAll(txs, b, accountId, now) && UpsertAll(txs, b, accountId, now)[k] == txs[k]
  {
    if b != [] {
      UpsertAllLast(txs, b, accountId, now);
      UpsertAllOthers(txs, b[..|b| - 1], accountId, now, k);
    }
  }

  /** Each batch id carries its payload and its original owner (or the
      refreshed account, for a new row). */
  lemma {:induction false} UpsertAllBatch(txs: map<string, Transaction>, b: Batch, accountId: string, now: Instant, i: nat)
    requires DistinctIds(b) && i < |b|
    ensures b[i].0 in UpsertAll(txs, b, accountId, now)
    ensures UpsertAll(txs, b, accountId, now)[b[i].0] == TxFromPayload(b[i].0, OwnerOf(txs, b[i].0, accountId), b[i].1, now)
  {
    UpsertAllLast(txs, b, accountId, now);
    var init := b[..|b| - 1];
    var m := UpsertAll(txs, init, accountId, now);
    if i < |b| - 1 {
      UpsertAllBatch(txs, init, accountId, now, i);
    } else {
      var id := b[i].0;
      if id in txs { UpsertAllOthers(txs, init, accountId, now, id); }
      else { UpsertAllKeys(txs, init, accountId, now); }
      assert OwnerOf(m, id, accountId) == OwnerOf(txs, id, accountId);
    }
  }

  lemma UpsertAllAt(txs: map<string, Transaction>, b: Batch, accountId: string, now: Instant)
    requires DistinctIds(b)
    ensures UpsertAll(txs, b, accountId, now).Keys == txs.Keys + BatchIds(b)
    ensures forall i :: 0 <= i < |b| ==>
      UpsertAll(txs, b, accountId, now)[b[i].0] == TxFromPayload(b[i].0, OwnerOf(txs, b[i].0, accountId), b[i].1, now)
    ensures forall k :: k in txs && k !in BatchIds(b) ==> UpsertAll(txs, b, accountId, now)[k] == txs[k]
  {
    UpsertAllKeys(txs, b, accountId, now);
    forall i | 0 <= i < |b|
      ensures UpsertAll(txs, b, accountId, now)[b[i].0] == TxFromPayload(b[i].0, OwnerOf(txs, b[i].0, accountId), b[i].1, now)
    {
      UpsertAllBatch(txs, b, accountId, now, i);
    }
    forall k | k in txs && k !in BatchIds(b) ensures UpsertAll(txs, b, accountId, now)[k] == txs[k] {
      UpsertAllOthers(txs, b, accountId, now, k);
    }
  }

  /** The second loop: every previously cached row of the account that the
      batch did not mention is deleted. */
  function Prune(txs: map<string, Transaction>, gone: set<string>): (r: map<string, Transaction>)
    ensures r.Keys == txs.Keys - gone
    ensures forall k :: k in r ==> r[k] == txs[k]
  {
    map k | k in txs && k !in gone :: txs[k]
  }

  /** `replace_transactions` on the tables. */
  function Replaced(t: Tables, accountId: string, ps: seq<Payload>, now: Instant): (r: Tables)
    ensures r.users == t.users && r.accounts == t.accounts && r.balances == t.balances
  {
    var b := Dedup(ps);
    t.(transactions := Prune(UpsertAll(t.transactions, b, accountId, now), OwnedIds(t.transactions, accountId) - BatchIds(b)))
  }

  /** Which rows a refresh keeps, and their owners: the batch rows, and
      the rows of other accounts; every kept row keeps its owner, and a
      row outside the batch is untouched. */
  lemma ReplacedRow(t: Tables, accountId: string, ps: seq<Payload>, now: Instant, k: string)
    ensures var r := Replaced(t, accountId, ps, now).transactions;
      && (k in r <==> k in BatchIds(Dedup(ps)) || (k in t.transactions && t.transactions[k].accountId != accountId))
      && (k in r ==> r[k].accountId == OwnerOf(t.transactions, k, accountId))
      && (k in r && k !in BatchIds(Dedup(ps)) ==> r[k] == t.transactions[k])
  {
    var b := Dedup(ps);
    UpsertAllKeys(t.transactions, b, accountId, now);
    if k in BatchIds(b) {
      var i :| 0 <= i < |b| && b[i].0 == k;
      UpsertAllBatch(t.transactions, b, accountId, now, i);
    } else if k in t.transactions {
      UpsertAllOthers(t.transactions, b, accountId, now, k);
    }
  }

  /** A batch id carries the batch payload and keeps an existing owner. */
  lemma ReplacedBatchRow(t: Tables, accountId: string, ps: seq<Payload>, now: Instant, i: nat)
    requires i < |Dedup(ps)|
    ensures var r := Replaced(t, accountId, ps, now).transactions; var e := Dedup(ps)[i];
      e.0 in r && r[e.0] == TxFromPayload(e.0, OwnerOf(t.transactions, e.0, accountId), e.1, now)
  {
    UpsertAllKeys(t.transactions, Dedup(ps), accountId, now);
    UpsertAllBatch(t.transactions, Dedup(ps), accountId, now, i);
  }

  /** After a refresh the account's cached ids are exactly the batch ids,
      less those that already belonged to another account; a cached row of
      the account outside the batch is deleted; no other account loses a
      transaction or any of its rows outside the batch. */
  lemma ReplacedOwnership(t: Tables, accountId: string, ps: seq<Payload>, now: Instant)
    ensures var r := Replaced(t, accountId, ps, now).transactions;
      OwnedIds(r, accountId) == BatchIds(Dedup(ps)) - (t.transactions.Keys - OwnedIds(t.transactions, accountId))
    ensures var r := Replaced(t, accountId, ps, now).transactions;
      forall k :: k in t.transactions && t.transactions[k].accountId != accountId ==>
        k in r && r[k].accountId == t.transactions[k].accountId
    ensures var r := Replaced(t, accountId, ps, now).transactions;
      forall k :: k in t.transactions && t.transactions[k].accountId != accountId && k !in BatchIds(Dedup(ps)) ==>
        r[k] == t.transactions[k]
  {
    var r := Replaced(t, accountId, ps, now).transactions;
    var b, others := BatchIds(Dedup(ps)), t.transactions.Keys - OwnedIds(t.transactions, accountId);
    forall k ensures k in OwnedIds(r, accountId) <==> k in b - others {
      ReplacedRow(t, accountId, ps, now, k);
    }
    forall k | k in t.transactions && t.transactions[k].accountId != accountId
      ensures k in r && r[k].accountId == t.transactions[k].accountId
    {
      ReplacedRow(t, accountId, ps, now, k);
    }
    forall k | k in t.transactions && t.transactions[k].accountId != accountId && k !in b
      ensures r[k] == t.transactions[k]
    {
      ReplacedRow(t, accountId, ps, now, k);
    }
  }

  /** The ids a refresh keeps are the ids the payloads carry, when none of
      them belongs to another account. */
  lemma ReplacedIds(t: Tables, accountId: string, ps: seq<Payload>, now: Instant)
    requires forall k :: k in PayloadIds(ps) && k in t.transactions ==> t.transactions[k].accountId == accountId
    ensures OwnedIds(Replaced(t, accountId, ps, now).transactions, accountId) == PayloadIds(ps)
  {
    ReplacedOwnership(t, accountId, ps, now);
    DedupIds(ps);
  }

  /** Refreshing twice with the same batch is refreshing once with the
      later clock: no duplicate rows, the same ids. */
  lemma ReplacedIdempotent(t: Tables, accountId: string, ps: seq<Payload>, now: Instant, later: Instant)
    ensures Replaced(Replaced(t, accountId, ps, now), accountId, ps, later) == Replaced(t, accountId, ps, later)
  {
    var b := Dedup(ps);
    var t1 := Replaced(t, accountId, ps, now);
    var r2 := Replaced(t1, accountId, ps, later).transactions;
    var r1 := Replaced(t, accountId, ps, later).transactions;
    forall k ensures (k in r1 <==> k in r2) && (k in r1 ==> r1[k] == r2[k]) {
      ReplacedRow(t, accountId, ps, now, k);
      ReplacedRow(t, accountId, ps, later, k);
      ReplacedRow(t1, accountId, ps, later, k);
      if k in BatchIds(b) {
        var i :| 0 <= i < |b| && b[i].0 == k;
        ReplacedBatchRow(t, accountId, ps, later, i);
        ReplacedBatchRow(t1, accountId, ps, later, i);
      }
    }
    assert r1 == r2;
  }

  lemma ReplacedConsistent(t: Tables, accountId: string, ps: seq<Payload>, now: Instant)
    requires Consistent(t) && accountId in t.accounts
    ensures Consistent(Replaced(t, accountId, ps, now))
  {
    var r := Replaced(t, accountId, ps, now).transactions;
    forall k | k in r ensures r[k].id == k && r[k].accountId in t.accounts {
      ReplacedRow(t, accountId, ps, now, k);
      var b := Dedup(ps);
      if k in BatchIds(b) {
        var i :| 0 <= i < |b| && b[i].0 == k;
        ReplacedBatchRow(t, accountId, ps, now, i);
      }
    }
  }

  lemma UpsertAllSnoc(txs: map<string, Transaction>, b: Batch, e: (string, Payload), accountId: string, now: Instant)
    requires DistinctIds(b) && e.0 !in BatchIds(b)
    ensures UpsertAll(txs, b + [e], accountId, now)
      == UpsertAll(txs, b, accountId, now)[e.0 := TxFromPayload(e.0, OwnerOf(txs, e.0, accountId), e.1, now)]
  {
    var b' := b + [e];
    assert b'[..|b'| - 1] == b;
    UpsertAllKeys(txs, b, accountId, now);
    if e.0 in txs {
      UpsertAllOthers(txs, b, accountId, now, e.0);
    }
  }

  /** A pass of the first loop that keeps its payload extends the batch
      by that payload and its id. */
  lemma KeptBatch(done: seq<Payload>, p: Payload, batch: Batch, id: string)
    requires batch == Dedup(done)
    requires PayloadId(p) == Some(id) && id !in BatchIds(batch)
    ensures batch + [(id, p)] == Dedup(done + [p])
    ensures BatchIds(batch + [(id, p)]) == BatchIds(batch) + {id}
  {
    DedupLast(done, p);
    BatchIdsAppend(batch, (id, p));
  }

  /** The row a kept payload writes: the existing row updated in place,
      or a new row of the account. */
  function UpdatedRow(txs: map<string, Transaction>, id: string, accountId: string, p: Payload, now: Instant): (x: Transaction)
    requires id in txs ==> txs[id].id == id
    ensures x == TxFromPayload(id, OwnerOf(txs, id, accountId), p, now)
  {
    if id in txs then
      txs[id].(raw := p, description := Text(Get(p, "description")),
        amount := AsDecimal(Get(p, "amount")), runningBalance := AsDecimal(Get(p, "running_balance")),
        date := AsDate(Get(p, "date")), kind := Text(Get(p, "type")), cachedAt := now)
    else TxFromPayload(id, accountId, p, now)
  }

  /** Writing a kept payload's row moves the map on by one batch entry. */
  lemma KeptRow(before: map<string, Transaction>, batch: Batch, id: string, p: Payload, accountId: string, now: Instant)
    requires DistinctIds(batch) && id !in BatchIds(batch)
    requires var txs := UpsertAll(before, batch, accountId, now); id in txs ==> txs[id].id == id
    ensures var txs := UpsertAll(before, batch, accountId, now);
      txs[id := UpdatedRow(txs, id, accountId, p, now)] == UpsertAll(before, batch + [(id, p)], accountId, now)
  {
    UpsertAllKeys(before, batch, accountId, now);
    if id in before {
      UpsertAllOthers(before, batch, accountId, now, id);
    }
    UpsertAllSnoc(before, batch, (id, p), accountId, now);
  }

  /** The rows returned so far stay the map's rows when a new id is written. */
  lemma KeptRows(batch: Batch, txs: map<string, Transaction>, rows: seq<Transaction>, id: string, p: Payload, tx: Transaction)
    requires id !in BatchIds(batch)
    requires |rows| == |batch| && forall j :: 0 <= j < |rows| ==> batch[j].0 in txs && rows[j] == txs[batch[j].0]
    ensures forall j :: 0 <= j < |rows| + 1 ==>
      (batch + [(id, p)])[j].0 in txs[id := tx] && (rows + [tx])[j] == txs[id := tx][(batch + [(id, p)])[j].0]
  {
    forall j | 0 <= j < |rows| + 1
      ensures (batch + [(id, p)])[j].0 in txs[id := tx] && (rows + [tx])[j] == txs[id := tx][(batch + [(id, p)])[j].0]
    {
      if j < |rows| {
        assert (batch + [(id, p)])[j] == batch[j] && batch[j].0 != id;
      }
    }
  }

  /** A pass of the first loop that skips its payload. */
  lemma SkippedStep(done: seq<Payload>, p: Payload, batch: Batch)
    requires batch == Dedup(done)
    requires !(PayloadId(p).Some? && PayloadId(p).value !in BatchIds(batch))
    ensures batch == Dedup(done + [p])
  {
    DedupLast(done, p);
  }

  lemma PruneStep(txs: map<string, Transaction>, gone: set<string>, id: string)
    ensures Prune(txs, gone + {id}) == (var m := Prune(txs, gone); if id in m then m - {id} else m)
  {
  }

  /** `replace_transactions` on the session's view of the transaction
      table: upsert each first-seen id of the batch, then delete the
      account's rows the batch left out. */
  method RefreshTransactions(table: map<string, Transaction>, accountId: string, payloads: seq<Payload>, now: Instant)
    returns (txs: map<string, Transaction>, rows: seq<Transaction>)
    requires KeyedById(table)
    ensures txs == Prune(UpsertAll(table, Dedup(payloads), accountId, now), OwnedIds(table, accountId) - BatchIds(Dedup(payloads)))
    ensures |rows| == |Dedup(payloads)|
    ensures forall i :: 0 <= i < |rows| ==> rows[i].id == Dedup(payloads)[i].0 && rows[i].id in txs && txs[rows[i].id] == rows[i]
  {
    var existingIds := OwnedIds(table, accountId);
    var upserted, seen;
    upserted, rows, seen := UpsertBatch(table, accountId, payloads, now);
    txs := DeleteRows(upserted, existingIds - seen);
    forall i | 0 <= i < |rows| ensures rows[i].id in txs && txs[rows[i].id] == rows[i] {
      assert rows[i].id in seen;
    }
  }

  /** The first loop of `replace_transactions`: each payload with an id not
      seen before in the batch updates the row with that id, or adds one
      owned by the account. */
  method UpsertBatch(table: map<string, Transaction>, accountId: string, payloads: seq<Payload>, now: Instant)
    returns (txs: map<string, Transaction>, rows: seq<Transaction>, seen: set<string>)
    requires KeyedById(table)
    ensures txs == UpsertAll(table, Dedup(payloads), accountId, now)
    ensures seen == BatchIds(Dedup(payloads))
    ensures |rows| == |Dedup(payloads)|
    ensures forall i :: 0 <= i < |rows| ==> rows[i].id == Dedup(payloads)[i].0 && rows[i].id in txs && txs[rows[i].id] == rows[i]
  {
    txs, rows, seen := table, [], {};
    ghost var batch: Batch := [];
    var i := 0;
    while i < |payloads|
      invariant 0 <= i <= |payloads|
      invariant UpsertedSoFar(table, accountId, now, payloads[..i], batch, seen, txs, rows)
    {
      Prefix(payloads, i);
      txs, rows, seen, batch := UpsertStep(table, accountId, now, payloads[..i], batch, seen, txs, rows, payloads[i]);
      i := i + 1;
    }
    UpsertedAll(table, accountId, now, payloads, batch, seen, txs, rows);
  }

  lemma Prefix<T>(s: seq<T>, i: nat)
    requires i < |s|
    ensures s[..i + 1] == s[..i] + [s[i]]
  {
  }

  /** After the last payload the loop's state is the whole batch's. */
  lemma UpsertedAll(table: map<string, Transaction>, accountId: string, now: Instant, payloads: seq<Payload>,
                    batch: Batch, seen: set<string>, txs: map<string, Transaction>, rows: seq<Transaction>)
    requires UpsertedSoFar(table, accountId, now, payloads[..|payloads|], batch, seen, txs, rows)
    ensures txs == UpsertAll(table, Dedup(payloads), accountId, now)
    ensures seen == BatchIds(Dedup(payloads))
    ensures |rows| == |Dedup(payloads)|
    ensures forall i :: 0 <= i < |rows| ==> rows[i].id == Dedup(payloads)[i].0 && rows[i].id in txs && txs[rows[i].id] == rows[i]
  {
    assert payloads[..|payloads|] == payloads;
  }

  /** The state of the first loop after the payloads `done`. */
  ghost predicate UpsertedSoFar(table: map<string, Transaction>, accountId: string, now: Instant, done: seq<Payload>,
                                batch: Batch, seen: set<string>, txs: map<string, Transaction>, rows: seq<Transaction>) {
    && batch == Dedup(done)
    && seen == BatchIds(batch)
    && txs == UpsertAll(table, batch, accountId, now)
    && KeyedById(txs) && RowsMatch(rows, batch, txs)
  }

  /** One pass of the first loop: a payload whose id is new to the batch
      writes its row; any other payload is skipped. */
  method UpsertStep(table: map<string, Transaction>, accountId: string, now: Instant, ghost done: seq<Payload>,
                    ghost batch: Batch, seen: set<string>, txs: map<string, Transaction>, rows: seq<Transaction>, payload: Payload)
    returns (txs': map<string, Transaction>, rows': seq<Transaction>, seen': set<string>, ghost batch': Batch)
    requires UpsertedSoFar(table, accountId, now, done, batch, seen, txs, rows)
    ensures UpsertedSoFar(table, accountId, now, done + [payload], batch', seen', txs', rows')
  {
    var txId := IdOf(Get(payload, "id"));
    if txId.Some? && txId.value !in seen {
      var id := txId.value;
      KeptBatch(done, payload, batch, id);
      txs', rows' := UpsertPayload(table, accountId, now, txs, rows, batch, id, payload);
      seen' := seen + {id};
      batch' := batch + [(id, payload)];
    } else {
      SkippedStep(done, payload, batch);
      txs', rows', seen', batch' := txs, rows, seen, batch;
    }
  }

  /** Every row sits under its own id. */
  ghost predicate KeyedById(txs: map<string, Transaction>) {
    forall k :: k in txs ==> txs[k].id == k
  }

  /** The rows returned so far are the rows of the batch's ids, in batch
      order. */
  ghost predicate RowsMatch(rows: seq<Transaction>, b: Batch, txs: map<string, Transaction>) {
    |rows| == |b| && forall j :: 0 <= j < |rows| ==> b[j].0 in txs && rows[j] == txs[b[j].0]
  }

  /** A pass of the first loop on a payload whose id is new to the batch:
      it writes the payload's row and returns it. */
  method UpsertPayload(table: map<string, Transaction>, accountId: string, now: Instant,
                       txs: map<string, Transaction>, rows: seq<Transaction>, ghost batch: Batch, id: string, p: Payload)
    returns (txs': map<string, Transaction>, rows': seq<Transaction>)
    requires DistinctIds(batch) && id !in BatchIds(batch)
    requires txs == UpsertAll(table, batch, accountId, now)
    requires KeyedById(txs) && RowsMatch(rows, batch, txs)
    ensures txs' == UpsertAll(table, batch + [(id, p)], accountId, now)
    ensures KeyedById(txs') && RowsMatch(rows', batch + [(id, p)], txs')
  {
    var tx := UpdatedRow(txs, id, accountId, p, now);
    KeptRow(table, batch, id, p, accountId, now);
    KeptRows(batch, txs, rows, id, p, tx);
    KeyedStep(txs, id, tx);
    txs', rows' := txs[id := tx], rows + [tx];
  }

  lemma KeyedStep(txs: map<string, Transaction>, id: string, tx: Transaction)
    requires KeyedById(txs) && tx.id == id
    ensures KeyedById(txs[id := tx])
  {
    var m := txs[id := tx];
    forall k | k in m ensures m[k].id == k {
      if k != id { assert m[k] == txs[k]; }
    }
  }

  /** The second loop of `replace_transactions`: delete each doomed row. */
  method DeleteRows(table: map<string, Transaction>, doomed: set<string>) returns (txs: map<string, Transaction>)
    ensures txs == Prune(table, doomed)
  {
    txs := table;
    var todo := doomed;
    while todo != {}
      invariant todo <= doomed
      invariant txs == Prune(table, doomed - todo)
      decreases |todo|
    {
      var id :| id in todo;
      assert doomed - (todo - {id}) == (doomed - todo) + {id};
      PruneStep(table, doomed - todo, id);
      if id in txs {
        txs := txs - {id};
      }
      todo := todo - {id};
    }
  }

  // ---------------------------------------------------------------------
  // Ordered reads

  /** `ORDER BY … LIMIT limit` over the rows whose keys are in `keys`:
      at most `limit` keys, no key twice, in `le` order, and no row left
      out that `le` puts strictly before a listed one. `le` is a total
      preorder; rows that tie come in an order this leaves open. */
  method SelectOrdered<T(!new)>(rows: map<string, T>, keys: set<string>, le: (T, T) -> bool, limit: nat) returns (r: seq<string>)
    requires keys <= rows.Keys
    requires TotalPreorder(le)
    ensures |r| == if |keys| < limit then |keys| else limit
    ensures forall i :: 0 <= i < |r| ==> r[i] in keys
    ensures forall i, j :: 0 <= i < j < |r| ==> r[i] != r[j]
    ensures forall i, j :: 0 <= i < j < |r| ==> le(rows[r[i]], rows[r[j]])
    ensures forall k, i :: k in keys && k !in r && 0 <= i < |r| ==> le(rows[r[i]], rows[k])
  {
    r := [];
    var rest := keys;
    while |r| < limit && rest != {}
      invariant Selected(rows, keys, le, r, rest) && |r| <= limit
      decreases |rest|
    {
      var next := Least(rows, rest, le);
      SelectedStep(rows, keys, le, r, rest, next);
      r := r + [next];
      rest := rest - {next};
    }
  }

  /** The state of the selection with `r` listed and `rest` still to
      place: the listed keys are distinct, in `le` order, and none is
      preceded by a row still to place. */
  ghost predicate Selected<T>(rows: map<string, T>, keys: set<string>, le: (T, T) -> bool, r: seq<string>, rest: set<string>) {
    && rest <= keys <= rows.Keys
    && (forall i :: 0 <= i < |r| ==> r[i] in keys && r[i] !in rest)
    && (forall k :: k in keys && k !in rest ==> k in r)
    && |r| + |rest| == |keys|
    && (forall i, j :: 0 <= i < j < |r| ==> r[i] != r[j])
    && (forall i, j :: 0 <= i < j < |r| ==> le(rows[r[i]], rows[r[j]]))
    && (forall k, i :: k in rest && 0 <= i < |r| ==> le(rows[r[i]], rows[k]))
  }

  /** Listing a row `le` puts first among those still to place keeps the
      selection's state. */
  lemma SelectedStep<T>(rows: map<string, T>, keys: set<string>, le: (T, T) -> bool, r: seq<string>, rest: set<string>, next: string)
    requires Selected(rows, keys, le, r, rest)
    requires next in rest && forall k :: k in rest ==> le(rows[next], rows[k])
    ensures Selected(rows, keys, le, r + [next], rest - {next})
  {
    var r', rest' := r + [next], rest - {next};
    assert |rest'| == |rest| - 1;
    forall i | 0 <= i < |r'| ensures r'[i] in keys && r'[i] !in rest' {
      if i < |r| { assert r'[i] == r[i]; }
    }
    forall k | k in keys && k !in rest' ensures k in r' {
      if k != next { assert k in r; var i :| 0 <= i < |r| && r[i] == k; assert r'[i] == k; }
      else { assert r'[|r|] == k; }
    }
    forall i, j | 0 <= i < j < |r'| ensures r'[i] != r'[j] && le(rows[r'[i]], rows[r'[j]]) {
      if j < |r| { assert r'[i] == r[i] && r'[j] == r[j]; }
      else { assert r'[i] == r[i] && r'[j] == next; }
    }
    forall k, i | k in rest' && 0 <= i < |r'| ensures le(rows[r'[i]], rows[k]) {
      if i < |r| { assert r'[i] == r[i]; }
    }
  }

  /** The rows of the keys `ids`, in that order. */
  function RowsAt<T>(m: map<string, T>, ids: seq<string>): (r: seq<T>)
    requires forall i :: 0 <= i < |ids| ==> ids[i] in m
    ensures |r| == |ids| && forall i :: 0 <= i < |ids| ==> r[i] == m[ids[i]]
  {
    seq(|ids|, i requires 0 <= i < |ids| => m[ids[i]])
  }

  /** `le` compares every pair and is transitive. */
  ghost predicate TotalPreorder<T(!new)>(le: (T, T) -> bool) {
    && (forall a, b :: le(a, b) || le(b, a))
    && (forall a, b, c :: le(a, b) && le(b, c) ==> le(a, c))
  }

  /** The key of a row that `le` puts first among the rows of `keys`. */
  method Least<T(!new)>(rows: map<string, T>, keys: set<string>, le: (T, T) -> bool) returns (next: string)
    requires keys != {} && keys <= rows.Keys
    requires TotalPreorder(le)
    ensures next in keys
    ensures forall k :: k in keys ==> le(rows[next], rows[k])
  {
    next :| next in keys;
    var todo := keys - {next};
    while todo != {}
      invariant todo <= keys && next in keys
      invariant forall k :: k in keys && k !in todo ==> le(rows[next], rows[k])
      decreases |todo|
    {
      var k :| k in todo;
      if !le(rows[next], rows[k]) {
        next := k;
      }
      todo := todo - {k};
    }
  }

  // ---------------------------------------------------------------------
  // The session's tables

  /** The repository over one database session: the four tables as
      mutable maps keyed by primary key. */
  class Store {
    var users: map<string, User>
    var accounts: map<string, Account>
    var balances: map<string, Balance>
    var transactions: map<string, Transaction>

    function State(): Tables
      reads this
    {
      Tables(users, accounts, balances, transactions)
    }

    ghost predicate Valid()
      reads this
    {
      Consistent(State())
    }

    constructor ()
      ensures State() == Empty && Valid()
    {
      users, accounts, balances, transactions := map[], map[], map[], map[];
    }

    /** Rolling the session back: the tables return to a snapshot. */
    method Restore(snapshot: Tables)
      modifies this
      ensures State() == snapshot
    {
      users, accounts, balances, transactions := snapshot.users, snapshot.accounts, snapshot.balances, snapshot.transactions;
    }

    method UpsertUser(id: string, token: string, name: Option<string>) returns (u: User)
      requires Valid()
      modifies this
      ensures Valid()
      ensures State() == old(State()).(users := UserUpserted(old(users), id, token, name))
      ensures id in users && u == users[id]
    {
      if id in users {
        var user := users[id];
        u := user.(accessToken := token, name := if name.Some? && name.value != "" then name else user.name);
      } else {
        u := User(id, token, name);
      }
      users := users[id := u];
    }

    method GetUserByToken(token: string) returns (r: Lookup)
      requires Valid()
      ensures r.NoUser? <==> TokenHolders(users, token) == {}
      ensures r.ManyUsers? <==> |TokenHolders(users, token)| >= 2
      ensures r.OneUser? ==> TokenHolders(users, token) == {r.user.id} && users[r.user.id] == r.user
    {
      var holders := set k | k in users && users[k].accessToken == token;
      assert holders == TokenHolders(users, token);
      if holders == {} {
        r := NoUser;
      } else {
        var k :| k in holders;
        if holders == {k} {
          assert |holders| == 1;
          r := OneUser(users[k]);
        } else {
          var j :| j in holders && j != k;
          TwoMembers(holders, k, j);
          r := ManyUsers;
        }
      }
    }

    method UpsertAccount(userId: string, payload: Payload) returns (r: Result<Account, string>)
      requires Valid() && userId in users
      modifies this
      ensures Valid()
      ensures r.Err? <==> AccountUpserted(old(State()), userId, payload).Err?
      ensures r.Err? ==> State() == old(State())
      ensures r.Ok? ==> State() == AccountUpserted(old(State()), userId, payload).value
      ensures r.Ok? ==> r.value.id == IdOf(Get(payload, "id")).value
      ensures r.Ok? ==> r.value.id in accounts && accounts[r.value.id] == r.value
    {
      var accountId := IdOf(Get(payload, "id"));
      if accountId.None? {
        return Err("Account payload missing id");
      }
      var id := accountId.value;
      var account: Account;
      if id in accounts {
        // re-associate with the latest user and overwrite every column
        account := accounts[id].(
          userId := userId, raw := payload, name := Text(Get(payload, "name")),
          kind := Text(Get(payload, "type")), subtype := Text(Get(payload, "subtype")),
          lastFour := LastFourOf(payload), institution := InstitutionOf(payload),
          currency := Text(Get(payload, "currency")));
      } else {
        account := AccountFromPayload(id, userId, payload);
      }
      accounts := accounts[id := account];
      r := Ok(account);
      AccountUpsertConsistent(old(State()), userId, payload);
    }

    method ListAccounts(userId: string) returns (r: seq<Account>)
      requires Valid()
      ensures AccountsSorted(r)
      ensures forall i :: 0 <= i < |r| ==> r[i].id in accounts && accounts[r[i].id] == r[i] && r[i].userId == userId
      ensures forall i, j :: 0 <= i < j < |r| ==> r[i].id != r[j].id
      ensures |r| == |AccountsOf(State(), userId)|
    {
      var keys := AccountsOf(State(), userId);
      var le := (a: Account, b: Account) => NameLe(a.name, b.name);
      forall a: Account, b: Account, c: Account ensures (le(a, b) || le(b, a)) && (le(a, b) && le(b, c) ==> le(a, c)) {
        NameLeTotalPreorder(a.name, b.name, c.name);
      }
      var m := accounts;
      var ids := SelectOrdered(m, keys, le, |keys|);
      r := RowsAt(m, ids);
    }

    /** `session.get`: the account with this id, if any. */
    function GetAccount(id: string): (r: Option<Account>)
      reads this
      ensures r.Some? <==> id in accounts
      ensures r.Some? ==> r.value == accounts[id]
    {
      if id in accounts then Some(accounts[id]) else None
    }

    method UpdateBalance(accountId: string, payload: Payload, now: Instant) returns (b: Balance)
      requires Valid() && accountId in accounts
      modifies this
      ensures Valid()
      ensures State() == BalanceUpdated(old(State()), accountId, payload, now)
      ensures b == balances[accountId]
    {
      if accountId in balances {
        b := balances[accountId].(
          raw := payload, available := AsDecimal(Get(payload, "available")),
          ledger := AsDecimal(Get(payload, "ledger")), currency := Text(Get(payload, "currency")),
          cachedAt := now);
      } else {
        b := BalanceFromPayload(accountId, payload, now);
      }
      balances := balances[accountId := b];
      BalanceUpdateConsistent(old(State()), accountId, payload, now);
    }

    /** `replace_transactions`; None where an id makes it raise. The rows
        it wrote before raising are rolled back with the session, so the
        model leaves them unwritten. */
    method ReplaceTransactions(accountId: string, payloads: seq<Payload>, now: Instant) returns (rows: Option<seq<Transaction>>)
      requires Valid() && accountId in accounts
      modifies this
      ensures Valid()
      ensures rows.None? <==> !IdsStorable(payloads)
      ensures rows.None? ==> State() == old(State())
      ensures rows.Some? ==> State() == Replaced(old(State()), accountId, payloads, now)
      ensures rows.Some? ==> |rows.value| == |Dedup(payloads)|
      ensures rows.Some? ==> forall i :: 0 <= i < |rows.value| ==>
        rows.value[i].id == Dedup(payloads)[i].0 && rows.value[i].id in transactions && transactions[rows.value[i].id] == rows.value[i]
    {
      if !IdsStorable(payloads) {
        return None;
      }
      var txs, written := RefreshTransactions(transactions, accountId, payloads, now);
      transactions := txs;
      ReplacedConsistent(old(State()), accountId, payloads, now);
      rows := Some(written);
    }

    method ListTransactions(accountId: string, limit: nat) returns (r: seq<Transaction>)
      requires Valid()
      ensures TransactionsSorted(r)
      ensures |r| == if |OwnedIds(transactions, accountId)| < limit then |OwnedIds(transactions, accountId)| else limit
      ensures forall i :: 0 <= i < |r| ==> r[i].id in transactions && transactions[r[i].id] == r[i] && r[i].accountId == accountId
      ensures forall i, j :: 0 <= i < j < |r| ==> r[i].id != r[j].id
      ensures forall k, i :: k in OwnedIds(transactions, accountId) && 0 <= i < |r| && (forall j :: 0 <= j < |r| ==> r[j].id != k) ==>
        Newer(r[i], transactions[k])
    {
      var keys := OwnedIds(transactions, accountId);
      var le := (a: Transaction, b: Transaction) => Newer(a, b);
      forall a: Transaction, b: Transaction, c: Transaction ensures (le(a, b) || le(b, a)) && (le(a, b) && le(b, c) ==> le(a, c)) {
        NewerTotalPreorder(a, b, c);
      }
      var m := transactions;
      var ids := SelectOrdered(m, keys, le, limit);
      r := RowsAt(m, ids);
      assert forall i :: 0 <= i < |r| ==> r[i].id == ids[i];
    }
  }
}
