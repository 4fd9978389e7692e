/** The token wallet service: rows updated in place, each method proved against its `TokenLedger` function. */
module TokensServices {
  import opened Basics
  import L = TokenLedger

  class TokensService {
    var wallets: map<UserId, L.Wallet>
    var transactions: seq<L.Transaction>
    var pricing: map<L.Activity, L.Pricing>
    var allocations: map<L.Budget, int>

    /** The stored rows as one value. */
    ghost function View(): L.Ledger
      reads this
    {
      L.Ledger(wallets, transactions, pricing, allocations)
    }

    constructor ()
      ensures View() == L.EMPTY_LEDGER
    {
      wallets, transactions, pricing, allocations := map[], [], map[], map[];
    }

    method Credit(userId: UserId, amount: int, tokenType: L.TokenType) returns (wallet: L.Wallet)
      modifies this
      ensures View() == L.Credit(old(View()), userId, amount, tokenType)
      ensures wallet == L.WalletOf(View(), userId)
    {
      if userId in wallets {
        wallets := wallets[userId := wallets[userId].Adjust(tokenType, amount)];
      } else {
        wallets := wallets[userId := if tokenType.Business? then L.Wallet(amount, 0) else L.Wallet(0, amount)];
      }
      transactions := transactions + [L.Transaction(userId, L.CREDIT, tokenType, amount, None)];
      wallet := GetWallet(userId);
    }

    method Spend(userId: UserId, activity: L.Activity, tokenType: L.TokenType, reference: Option<Id>)
      returns (r: Result<L.Wallet, L.TokenError>)
      modifies this
      ensures match L.Spend(old(View()), userId, activity, tokenType, reference)
              case Ok(l) => View() == l && r == Ok(L.WalletOf(l, userId))
              case Err(e) => View() == old(View()) && r == Err(e)
    {
      if activity !in pricing || !pricing[activity].isActive {
        return Err(L.InvalidActivity(activity));
      }
      var cost := pricing[activity].cost;
      if userId !in wallets {
        return Err(L.InsufficientTokens(tokenType, cost, 0));
      }
      var balance := wallets[userId].Balance(tokenType);
      if balance < cost {
        return Err(L.InsufficientTokens(tokenType, cost, balance));
      }
      wallets := wallets[userId := wallets[userId].Adjust(tokenType, -cost)];
      transactions := transactions + [L.Transaction(userId, activity, tokenType, -cost, reference)];
      var wallet := GetWallet(userId);
      r := Ok(wallet);
    }

    method Allocate(userId: UserId, activity: L.Activity, tokenType: L.TokenType, amount: int)
      returns (r: Result<L.Wallet, L.TokenError>)
      modifies `allocations
      ensures match L.Allocate(old(View()), userId, activity, tokenType, amount)
              case Ok(l) => View() == l && r == Ok(L.WalletOf(l, userId))
              case Err(e) => View() == old(View()) && r == Err(e)
    {
      if userId !in wallets {
        return Err(L.InsufficientTokens(tokenType, amount, 0));
      }
      var balance := wallets[userId].Balance(tokenType);
      if balance < amount {
        return Err(L.InsufficientTokens(tokenType, amount, balance));
      }
      allocations := allocations[L.Budget(userId, activity, tokenType) := amount];
      var wallet := GetWallet(userId);
      r := Ok(wallet);
    }

    method GetWallet(userId: UserId) returns (wallet: L.Wallet)
      ensures wallet == L.WalletOf(View(), userId)
    {
      if userId in wallets {
        wallet := wallets[userId];
      } else {
        wallet := L.Wallet(0, 0);
      }
    }

    method SetActivityPricing(activity: L.Activity, cost: int, isActive: bool)
      modifies `pricing
      ensures View() == L.SetPricing(old(View()), activity, cost, isActive)
    {
      pricing := pricing[activity := L.Pricing(cost, isActive)];
    }
  }
}
