/** Token wallets, activity pricing and the transaction log, as values. */
module TokenLedger {
  import opened Basics
  import opened Sums

  datatype TokenType = Business | Individual

  /** Activity types are free-form names, priced by the platform administrators. */
  type Activity = string

  const CREDIT: Activity := "CREDIT"

  datatype Wallet = Wallet(business: int, individual: int) {
    function Balance(tokenType: TokenType): int {
      match tokenType
      case Business => business
      case Individual => individual
    }

    function Adjust(tokenType: TokenType, delta: int): Wallet {
      match tokenType
      case Business => this.(business := business + delta)
      case Individual => this.(individual := individual + delta)
    }
  }

  const EMPTY_WALLET := Wallet(0, 0)

  datatype Pricing = Pricing(cost: int, isActive: bool)

  datatype Transaction = Transaction(
    userId: UserId, activity: Activity, tokenType: TokenType, amount: int, reference: Option<Id>)

  datatype Budget = Budget(userId: UserId, activity: Activity, tokenType: TokenType)

  datatype Ledger = Ledger(
    wallets: map<UserId, Wallet>,
    transactions: seq<Transaction>,
    pricing: map<Activity, Pricing>,
    allocations: map<Budget, int>)

  const EMPTY_LEDGER := Ledger(map[], [], map[], map[])

  datatype TokenError =
    | InvalidActivity(activity: Activity)
    | InsufficientTokens(tokenType: TokenType, required: int, available: int)

  /** The wallet as shown to its owner: a user without a wallet row sees zero balances. */
  function WalletOf(l: Ledger, userId: UserId): Wallet {
    if userId in l.wallets then l.wallets[userId] else EMPTY_WALLET
  }

  /** Adjusts one balance and appends the transaction that explains it. */
  function Post(l: Ledger, t: Transaction): Ledger {
    l.(wallets := l.wallets[t.userId := WalletOf(l, t.userId).Adjust(t.tokenType, t.amount)],
       transactions := l.transactions + [t])
  }

  function Credit(l: Ledger, userId: UserId, amount: int, tokenType: TokenType): Ledger {
    Post(l, Transaction(userId, CREDIT, tokenType, amount, None))
  }

  /** The pricing check comes first; a missing wallet is refused even when the activity costs nothing. */
  function Spend(l: Ledger, userId: UserId, activity: Activity, tokenType: TokenType, reference: Option<Id>)
    : Result<Ledger, TokenError>
  {
    if activity !in l.pricing || !l.pricing[activity].isActive then Err(InvalidActivity(activity))
    else
      var cost := l.pricing[activity].cost;
      if userId !in l.wallets then Err(InsufficientTokens(tokenType, cost, 0))
      else if l.wallets[userId].Balance(tokenType) < cost then
        Err(InsufficientTokens(tokenType, cost, l.wallets[userId].Balance(tokenType)))
      else Ok(Post(l, Transaction(userId, activity, tokenType, -cost, reference)))
  }

  /** Earmarks an amount: compared with the balance of the moment, never deducted from it. */
  function Allocate(l: Ledger, userId: UserId, activity: Activity, tokenType: TokenType, amount: int)
    : Result<Ledger, TokenError>
  {
    if userId !in l.wallets then Err(InsufficientTokens(tokenType, amount, 0))
    else if l.wallets[userId].Balance(tokenType) < amount then
      Err(InsufficientTokens(tokenType, amount, l.wallets[userId].Balance(tokenType)))
    else Ok(l.(allocations := l.allocations[Budget(userId, activity, tokenType) := amount]))
  }

  function SetPricing(l: Ledger, activity: Activity, cost: int, isActive: bool): Ledger {
    l.(pricing := l.pricing[activity := Pricing(cost, isActive)])
  }

  // ---------- What the log says ----------

  /** The sum of one user's logged amounts of one token type. */
  ghost function Posted(ts: seq<Transaction>, userId: UserId, tokenType: TokenType): int {
    if ts == [] then 0
    else
      var last := ts[|ts| - 1];
      Posted(ts[..|ts| - 1], userId, tokenType)
      + if last.userId == userId && last.tokenType == tokenType then last.amount else 0
  }

  /** The sum of all logged amounts of one token type. */
  ghost function Volume(ts: seq<Transaction>, tokenType: TokenType): int {
    if ts == [] then 0
    else Volume(ts[..|ts| - 1], tokenType) + if ts[|ts| - 1].tokenType == tokenType then ts[|ts| - 1].amount else 0
  }

  /** The tokens of one type held by all wallets together. */
  ghost function Circulation(l: Ledger, tokenType: TokenType): int {
    Sum(Balances(l.wallets, tokenType))
  }

  ghost function Balances(wallets: map<UserId, Wallet>, tokenType: TokenType): map<UserId, int> {
    map u | u in wallets :: wallets[u].Balance(tokenType)
  }

  /** Every balance is explained by the log, wallet by wallet and in total. */
  ghost predicate Agrees(l: Ledger) {
    && (forall u: UserId, tt: TokenType :: WalletOf(l, u).Balance(tt) == Posted(l.transactions, u, tt))
    && (forall tt: TokenType :: Circulation(l, tt) == Volume(l.transactions, tt))
  }

  ghost predicate NonNegative(l: Ledger) {
    forall u | u in l.wallets :: l.wallets[u].business >= 0 && l.wallets[u].individual >= 0
  }

  // ---------- Preservation ----------

  lemma {:induction false} PostEffect(l: Ledger, t: Transaction, tt: TokenType)
    ensures Circulation(Post(l, t), tt) == Circulation(l, tt) + if t.tokenType == tt then t.amount else 0
    ensures Volume(Post(l, t).transactions, tt) == Volume(l.transactions, tt) + if t.tokenType == tt then t.amount else 0
  {
    assert Post(l, t).transactions[..|l.transactions|] == l.transactions;
    var w := WalletOf(l, t.userId).Adjust(t.tokenType, t.amount);
    assert Balances(Post(l, t).wallets, tt) == Balances(l.wallets, tt)[t.userId := w.Balance(tt)];
    SumUpdate(Balances(l.wallets, tt), t.userId, w.Balance(tt));
  }

  lemma {:induction false} PostAgrees(l: Ledger, t: Transaction)
    requires Agrees(l)
    ensures Agrees(Post(l, t))
  {
    var l' := Post(l, t);
    assert l'.transactions[..|l.transactions|] == l.transactions;
    forall u: UserId, tt: TokenType
      ensures WalletOf(l', u).Balance(tt) == Posted(l'.transactions, u, tt)
    {
      assert WalletOf(l, u).Balance(tt) == Posted(l.transactions, u, tt);
    }
    forall tt: TokenType ensures Circulation(l', tt) == Volume(l'.transactions, tt) {
      PostEffect(l, t, tt);
    }
  }

  lemma EmptyAgrees()
    ensures Agrees(EMPTY_LEDGER)
  {
  }

  /** Spending never overdraws, whatever the price, and moves exactly the price out of circulation. */
  lemma {:induction false} SpendSafe(l: Ledger, userId: UserId, activity: Activity, tokenType: TokenType, reference: Option<Id>)
    requires Agrees(l) && Spend(l, userId, activity, tokenType, reference).Ok?
    ensures var l' := Spend(l, userId, activity, tokenType, reference).value;
            && Agrees(l')
            && (NonNegative(l) ==> NonNegative(l'))
            && (forall tt :: Circulation(l', tt) == Circulation(l, tt) - if tt == tokenType then l.pricing[activity].cost else 0)
            && (forall u | u != userId :: WalletOf(l', u) == WalletOf(l, u))
  {
    var t := Transaction(userId, activity, tokenType, -l.pricing[activity].cost, reference);
    assert Spend(l, userId, activity, tokenType, reference).value == Post(l, t);
    PostAgrees(l, t);
    forall tt ensures Circulation(Post(l, t), tt) == Circulation(l, tt) - if tt == tokenType then l.pricing[activity].cost else 0 {
      PostEffect(l, t, tt);
    }
  }

  /** Crediting keeps the books for every amount; only non-negative amounts are sure to keep balances non-negative. */
  lemma {:induction false} CreditSafe(l: Ledger, userId: UserId, amount: int, tokenType: TokenType)
    requires Agrees(l)
    ensures var l' := Credit(l, userId, amount, tokenType);
            && Agrees(l')
            && (NonNegative(l) && amount >= 0 ==> NonNegative(l'))
            && (forall tt :: Circulation(l', tt) == Circulation(l, tt) + if tt == tokenType then amount else 0)
            && (forall u | u != userId :: WalletOf(l', u) == WalletOf(l, u))
  {
    var t := Transaction(userId, CREDIT, tokenType, amount, None);
    PostAgrees(l, t);
    forall tt ensures Circulation(Post(l, t), tt) == Circulation(l, tt) + if tt == tokenType then amount else 0 {
      PostEffect(l, t, tt);
    }
  }
}
