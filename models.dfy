/**
 * The four cached tables and the constraints the schema puts on them:
 * primary keys, foreign keys, cascading deletes, and the two orders the
 * repository reads rows in.
 */
module Models {
  import opened Wrappers
  import opened Decimals
  import opened Dates
  import opened Values

  /** A UTC timestamp in clock ticks (`datetime.utcnow()`). */
  type Instant = int

  datatype User = User(id: string, accessToken: string, name: Option<string>)

  /** `kind` is the `type` column. */
  datatype Account = Account(
    id: string,
    userId: string,
    name: Option<string>,
    institution: Option<string>,
    lastFour: Option<string>,
    kind: Option<string>,
    subtype: Option<string>,
    currency: Option<string>,
    raw: Payload)

  /** Keyed by its account: an account has at most one balance. */
  datatype Balance = Balance(
    accountId: string,
    available: Option<Decimal>,
    ledger: Option<Decimal>,
    currency: Option<string>,
    raw: Payload,
    cachedAt: Instant)

  datatype Transaction = Transaction(
    id: string,
    accountId: string,
    description: Option<string>,
    amount: Option<Decimal>,
    date: Option<Date>,
    runningBalance: Option<Decimal>,
    kind: Option<string>,
    raw: Payload,
    cachedAt: Instant)

  /** Each table is a map from its primary key, so keys are unique by
      construction. */
  datatype Tables = Tables(
    users: map<string, User>,
    accounts: map<string, Account>,
    balances: map<string, Balance>,
    transactions: map<string, Transaction>)

  const Empty := Tables(map[], map[], map[], map[])

  /** Every row sits under its own primary key. */
  ghost predicate KeysMatch(t: Tables) {
    (forall k :: k in t.users ==> t.users[k].id == k)
    && (forall k :: k in t.accounts ==> t.accounts[k].id == k)
    && (forall k :: k in t.balances ==> t.balances[k].accountId == k)
    && (forall k :: k in t.transactions ==> t.transactions[k].id == k)
  }

  /** Every non-null foreign key names an existing row. */
  ghost predicate ForeignKeys(t: Tables) {
    (forall k :: k in t.accounts ==> t.accounts[k].userId in t.users)
    && (forall k :: k in t.balances ==> k in t.accounts)
    && (forall k :: k in t.transactions ==> t.transactions[k].accountId in t.accounts)
  }

  ghost predicate Consistent(t: Tables) {
    KeysMatch(t) && ForeignKeys(t)
  }

  /** The ids of the accounts a user owns. */
  function AccountsOf(t: Tables, userId: string): (ids: set<string>)
    ensures forall k :: k in ids <==> k in t.accounts && t.accounts[k].userId == userId
  {
    set k | k in t.accounts && t.accounts[k].userId == userId
  }

  /** The ids of the transactions cached for an account. */
  function OwnedIds(txs: map<string, Transaction>, accountId: string): (ids: set<string>)
    ensures forall k :: k in ids <==> k in txs && txs[k].accountId == accountId
  {
    set k | k in txs && txs[k].accountId == accountId
  }

  /** Deleting an account cascades to its balance and its transactions. */
  function DeleteAccount(t: Tables, accountId: string): (r: Tables)
    ensures r.users == t.users
    ensures accountId !in r.accounts && accountId !in r.balances
    ensures OwnedIds(r.transactions, accountId) == {}
  {
    Tables(
      t.users,
      t.accounts - {accountId},
      t.balances - {accountId},
      map k | k in t.transactions && t.transactions[k].accountId != accountId :: t.transactions[k])
  }

  /** Deleting a user cascades to its accounts, and through them to their
      balances and transactions. */
  function DeleteUser(t: Tables, userId: string): (r: Tables)
    ensures userId !in r.users && AccountsOf(r, userId) == {}
  {
    var gone := AccountsOf(t, userId);
    Tables(
      t.users - {userId},
      t.accounts - gone,
      t.balances - gone,
      map k | k in t.transactions && t.transactions[k].accountId !in gone :: t.transactions[k])
  }

  lemma DeleteAccountConsistent(t: Tables, accountId: string)
    requires Consistent(t)
    ensures Consistent(DeleteAccount(t, accountId))
    ensures forall k :: k in t.accounts && k != accountId ==> k in DeleteAccount(t, accountId).accounts
    ensures forall k :: k in t.transactions && t.transactions[k].accountId != accountId ==>
      k in DeleteAccount(t, accountId).transactions
  {
  }

  lemma DeleteUserConsistent(t: Tables, userId: string)
    requires Consistent(t)
    ensures Consistent(DeleteUser(t, userId))
    ensures forall k :: k in t.accounts && t.accounts[k].userId != userId ==> k in DeleteUser(t, userId).accounts
    ensures forall k :: k in t.transactions && t.accounts[t.transactions[k].accountId].userId != userId ==>
      k in DeleteUser(t, userId).transactions
  {
    var r := DeleteUser(t, userId);
    forall k | k in r.accounts ensures r.accounts[k].userId in r.users {
      assert k in t.accounts && k !in AccountsOf(t, userId);
    }
  }

  // ---------------------------------------------------------------------
  // Orders. Text compares by code point (SQLite's BINARY collation), and
  // NULL sorts before every value.

  /** `a <= b` in lexicographic code-point order. */
  predicate TextLe(a: string, b: string) {
    a == [] || (b != [] && (a[0] < b[0] || (a[0] == b[0] && TextLe(a[1..], b[1..]))))
  }

  lemma {:induction false} TextLeTotal(a: string, b: string)
    ensures TextLe(a, b) || TextLe(b, a)
  {
    if a != [] && b != [] && a[0] == b[0] {
      TextLeTotal(a[1..], b[1..]);
    }
  }

  lemma {:induction false} TextLeTransitive(a: string, b: string, c: string)
    requires TextLe(a, b) && TextLe(b, c)
    ensures TextLe(a, c)
  {
    if a != [] && b != [] && c != [] && a[0] == b[0] && b[0] == c[0] {
      TextLeTransitive(a[1..], b[1..], c[1..]);
    }
  }

  lemma {:induction false} TextLeAntisymmetric(a: string, b: string)
    requires TextLe(a, b) && TextLe(b, a)
    ensures a == b
  {
    if a != [] && b != [] {
      TextLeAntisymmetric(a[1..], b[1..]);
      assert a == [a[0]] + a[1..] && b == [b[0]] + b[1..];
    }
  }

  /** `ORDER BY name` on a nullable column: NULL first, then by text. */
  predicate NameLe(a: Option<string>, b: Option<string>) {
    a.None? || (b.Some? && TextLe(a.value, b.value))
  }

  lemma NameLeTotalPreorder(a: Option<string>, b: Option<string>, c: Option<string>)
    ensures NameLe(a, a)
    ensures NameLe(a, b) || NameLe(b, a)
    ensures NameLe(a, b) && NameLe(b, c) ==> NameLe(a, c)
  {
    if a.Some? {
      TextLeTotal(a.value, a.value);
      if b.Some? {
        TextLeTotal(a.value, b.value);
        if c.Some? && NameLe(a, b) && NameLe(b, c) {
          TextLeTransitive(a.value, b.value, c.value);
        }
      }
    }
  }

  /** `date DESC` on a nullable column: later dates first, NULL last. */
  predicate DateAtLeast(a: Option<Date>, b: Option<Date>) {
    b.None? || (a.Some? && !Before(a.value, b.value))
  }

  /** `a` may come before `b` in `ORDER BY date DESC, cached_at DESC`. */
  predicate Newer(a: Transaction, b: Transaction) {
    if a.date == b.date then a.cachedAt >= b.cachedAt else DateAtLeast(a.date, b.date)
  }

  lemma NewerTotalPreorder(a: Transaction, b: Transaction, c: Transaction)
    ensures Newer(a, a)
    ensures Newer(a, b) || Newer(b, a)
    ensures Newer(a, b) && Newer(b, c) ==> Newer(a, c)
  {
    if a.date.Some? && b.date.Some? { BeforeIsStrictTotalOrder(a.date.value, b.date.value, a.date.value); }
    if a.date.Some? && b.date.Some? && c.date.Some? {
      BeforeIsStrictTotalOrder(a.date.value, b.date.value, c.date.value);
      BeforeIsStrictTotalOrder(c.date.value, b.date.value, a.date.value);
    }
  }

  predicate AccountsSorted(s: seq<Account>) {
    forall i, j :: 0 <= i < j < |s| ==> NameLe(s[i].name, s[j].name)
  }

  predicate TransactionsSorted(s: seq<Transaction>) {
    forall i, j :: 0 <= i < j < |s| ==> Newer(s[i], s[j])
  }

  /** The serialised fields of `serialize_account`. */
  function SerializeAccount(a: Account): (m: Payload)
    ensures m.Keys == {"id", "name", "institution", "last_four", "type", "subtype", "currency"}
    ensures m["id"] == Str(a.id) && Text(m["name"]) == a.name && Text(m["institution"]) == a.institution
    ensures Text(m["last_four"]) == a.lastFour && Text(m["type"]) == a.kind
    ensures Text(m["subtype"]) == a.subtype && Text(m["currency"]) == a.currency
  {
    map[
      "id" := Str(a.id),
      "name" := OfText(a.name),
      "institution" := OfText(a.institution),
      "last_four" := OfText(a.lastFour),
      "type" := OfText(a.kind),
      "subtype" := OfText(a.subtype),
      "currency" := OfText(a.currency)]
  }
}
