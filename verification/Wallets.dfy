/** Wallets: the four balances of one user, the checks every operation makes, and the
    mutable object that carries them. */
module Wallets {
  import opened Base
  import opened Orders

  datatype WalletError =
    | InsufficientBRL
    | InsufficientVibranium
    | InvalidAmount
    | ReleaseExceedsReserve

  datatype Balances = Balances(brl: int, reservedBrl: int, vib: int, reservedVib: int)
  {
    function AvailableBrl(): int { brl - reservedBrl }
    function AvailableVib(): int { vib - reservedVib }
    /** What conservation counts. */
    function AllBrl(): int { brl + reservedBrl }
    function AllVib(): int { vib + reservedVib }

    predicate NonNegative() {
      brl >= 0 && reservedBrl >= 0 && vib >= 0 && reservedVib >= 0
    }
  }

  datatype WalletResult = Ok(w: Balances) | Err(error: WalletError)
  {
    /** The balances afterwards: an operation that reports an error has changed nothing. */
    function After(before: Balances): Balances {
      match this
      case Ok(w) => w
      case Err(_) => before
    }

    function Error(): Option<WalletError> {
      match this
      case Ok(_) => None
      case Err(e) => Some(e)
    }
  }

  function ReserveBrl(w: Balances, amount: int): (r: WalletResult)
    ensures r.Ok? <==> 0 < amount <= w.brl - w.reservedBrl
    ensures r.Err? ==> r.error == if amount <= 0 then InvalidAmount else InsufficientBRL
    ensures r.Ok? ==> r.w.AllBrl() == w.AllBrl() && r.w.AllVib() == w.AllVib()
    ensures r.Ok? && w.NonNegative() ==> r.w.NonNegative()
  {
    if amount <= 0 then Err(InvalidAmount)
    else if w.AvailableBrl() < amount then Err(InsufficientBRL)
    else Ok(w.(brl := w.brl - amount, reservedBrl := w.reservedBrl + amount))
  }

  function ReserveVib(w: Balances, qty: int): (r: WalletResult)
    ensures r.Ok? <==> 0 < qty <= w.vib - w.reservedVib
    ensures r.Err? ==> r.error == if qty <= 0 then InvalidAmount else InsufficientVibranium
    ensures r.Ok? ==> r.w.AllBrl() == w.AllBrl() && r.w.AllVib() == w.AllVib()
    ensures r.Ok? && w.NonNegative() ==> r.w.NonNegative()
  {
    if qty <= 0 then Err(InvalidAmount)
    else if w.AvailableVib() < qty then Err(InsufficientVibranium)
    else Ok(w.(vib := w.vib - qty, reservedVib := w.reservedVib + qty))
  }

  function ReleaseBrl(w: Balances, amount: int): (r: WalletResult)
    ensures r.Ok? <==> 0 < amount <= w.reservedBrl
    ensures r.Err? ==> r.error == if amount <= 0 then InvalidAmount else ReleaseExceedsReserve
    ensures r.Ok? ==> r.w.AllBrl() == w.AllBrl() && r.w.AllVib() == w.AllVib()
    ensures r.Ok? && w.NonNegative() ==> r.w.NonNegative()
  {
    if amount <= 0 then Err(InvalidAmount)
    else if amount > w.reservedBrl then Err(ReleaseExceedsReserve)
    else Ok(w.(reservedBrl := w.reservedBrl - amount, brl := w.brl + amount))
  }

  function ReleaseVib(w: Balances, qty: int): (r: WalletResult)
    ensures r.Ok? <==> 0 < qty <= w.reservedVib
    ensures r.Err? ==> r.error == if qty <= 0 then InvalidAmount else ReleaseExceedsReserve
    ensures r.Ok? ==> r.w.AllBrl() == w.AllBrl() && r.w.AllVib() == w.AllVib()
    ensures r.Ok? && w.NonNegative() ==> r.w.NonNegative()
  {
    if qty <= 0 then Err(InvalidAmount)
    else if qty > w.reservedVib then Err(ReleaseExceedsReserve)
    else Ok(w.(reservedVib := w.reservedVib - qty, vib := w.vib + qty))
  }

  function SettleBuyLimit(w: Balances, price: int, qty: int): (r: WalletResult)
    ensures r.Ok? <==> price > 0 && qty > 0 && price * qty <= w.reservedBrl
    ensures r.Err? ==> r.error == if price <= 0 || qty <= 0 then InvalidAmount else ReleaseExceedsReserve
    ensures r.Ok? ==> r.w.AllBrl() == w.AllBrl() - price * qty && r.w.AllVib() == w.AllVib() + qty
    ensures r.Ok? && w.NonNegative() ==> r.w.NonNegative()
  {
    if price <= 0 || qty <= 0 then Err(InvalidAmount)
    else if price * qty > w.reservedBrl then Err(ReleaseExceedsReserve)
    else Ok(w.(reservedBrl := w.reservedBrl - price * qty, vib := w.vib + qty))
  }

  function SettleBuyMarket(w: Balances, price: int, qty: int): (r: WalletResult)
    ensures r.Ok? <==> price > 0 && qty > 0 && price * qty <= w.brl
    ensures r.Err? ==> r.error == if price <= 0 || qty <= 0 then InvalidAmount else InsufficientBRL
    ensures r.Ok? ==> r.w.AllBrl() == w.AllBrl() - price * qty && r.w.AllVib() == w.AllVib() + qty
    ensures r.Ok? && w.NonNegative() ==> r.w.NonNegative()
  {
    if price <= 0 || qty <= 0 then Err(InvalidAmount)
    else if price * qty > w.brl then Err(InsufficientBRL)
    else Ok(w.(brl := w.brl - price * qty, vib := w.vib + qty))
  }

  function SettleSell(w: Balances, price: int, qty: int): (r: WalletResult)
    ensures r.Ok? <==> price > 0 && 0 < qty <= w.reservedVib
    ensures r.Err? ==> r.error == if price <= 0 || qty <= 0 then InvalidAmount else ReleaseExceedsReserve
    ensures r.Ok? ==> r.w.AllBrl() == w.AllBrl() + price * qty && r.w.AllVib() == w.AllVib() - qty
    ensures r.Ok? && w.NonNegative() ==> r.w.NonNegative()
  {
    if price <= 0 || qty <= 0 then Err(InvalidAmount)
    else if qty > w.reservedVib then Err(ReleaseExceedsReserve)
    else
      assert w.brl >= 0 ==> w.brl + price * qty >= 0;
      Ok(w.(reservedVib := w.reservedVib - qty, brl := w.brl + price * qty))
  }

  class Wallet {
    const userId: UserId
    var balanceBrlCents: int
    var reservedBrlCents: int
    var balanceVibranium: int
    var reservedVibranium: int

    constructor (userId: UserId, w: Balances)
      ensures this.userId == userId && Value() == w
    {
      this.userId := userId;
      balanceBrlCents, reservedBrlCents := w.brl, w.reservedBrl;
      balanceVibranium, reservedVibranium := w.vib, w.reservedVib;
    }

    function Value(): Balances
      reads this
    {
      Balances(balanceBrlCents, reservedBrlCents, balanceVibranium, reservedVibranium)
    }

    function AvailableBrlCents(): (n: int)
      reads this
      ensures n == Value().AvailableBrl()
    {
      balanceBrlCents - reservedBrlCents
    }

    function AvailableVibranium(): (n: int)
      reads this
      ensures n == Value().AvailableVib()
    {
      balanceVibranium - reservedVibranium
    }

    method ReserveBRL(amountCents: int) returns (err: Option<WalletError>)
      modifies this
      ensures err == ReserveBrl(old(Value()), amountCents).Error()
      ensures Value() == ReserveBrl(old(Value()), amountCents).After(old(Value()))
    {
      if amountCents <= 0 { return Some(InvalidAmount); }
      if AvailableBrlCents() < amountCents { return Some(InsufficientBRL); }
      balanceBrlCents := balanceBrlCents - amountCents;
      reservedBrlCents := reservedBrlCents + amountCents;
      return None;
    }

    method ReserveVibranium(qty: int) returns (err: Option<WalletError>)
      modifies this
      ensures err == ReserveVib(old(Value()), qty).Error()
      ensures Value() == ReserveVib(old(Value()), qty).After(old(Value()))
    {
      if qty <= 0 { return Some(InvalidAmount); }
      if AvailableVibranium() < qty { return Some(InsufficientVibranium); }
      balanceVibranium := balanceVibranium - qty;
      reservedVibranium := reservedVibranium + qty;
      return None;
    }

    method ReleaseBRLReservation(amountCents: int) returns (err: Option<WalletError>)
      modifies this
      ensures err == ReleaseBrl(old(Value()), amountCents).Error()
      ensures Value() == ReleaseBrl(old(Value()), amountCents).After(old(Value()))
    {
      if amountCents <= 0 { return Some(InvalidAmount); }
      if amountCents > reservedBrlCents { return Some(ReleaseExceedsReserve); }
      reservedBrlCents := reservedBrlCents - amountCents;
      balanceBrlCents := balanceBrlCents + amountCents;
      return None;
    }

    method ReleaseVibraniumReservation(qty: int) returns (err: Option<WalletError>)
      modifies this
      ensures err == ReleaseVib(old(Value()), qty).Error()
      ensures Value() == ReleaseVib(old(Value()), qty).After(old(Value()))
    {
      if qty <= 0 { return Some(InvalidAmount); }
      if qty > reservedVibranium { return Some(ReleaseExceedsReserve); }
      reservedVibranium := reservedVibranium - qty;
      balanceVibranium := balanceVibranium + qty;
      return None;
    }

    method SettleBuyLimitFill(priceCents: int, qty: int) returns (err: Option<WalletError>)
      modifies this
      ensures err == SettleBuyLimit(old(Value()), priceCents, qty).Error()
      ensures Value() == SettleBuyLimit(old(Value()), priceCents, qty).After(old(Value()))
    {
      if priceCents <= 0 || qty <= 0 { return Some(InvalidAmount); }
      var cost := priceCents * qty;
      if cost > reservedBrlCents { return Some(ReleaseExceedsReserve); }
      reservedBrlCents := reservedBrlCents - cost;
      balanceVibranium := balanceVibranium + qty;
      return None;
    }

    method SettleBuyMarketFill(priceCents: int, qty: int) returns (err: Option<WalletError>)
      modifies this
      ensures err == SettleBuyMarket(old(Value()), priceCents, qty).Error()
      ensures Value() == SettleBuyMarket(old(Value()), priceCents, qty).After(old(Value()))
    {
      if priceCents <= 0 || qty <= 0 { return Some(InvalidAmount); }
      var cost := priceCents * qty;
      if cost > balanceBrlCents { return Some(InsufficientBRL); }
      balanceBrlCents := balanceBrlCents - cost;
      balanceVibranium := balanceVibranium + qty;
      return None;
    }

    method SettleSellFill(priceCents: int, qty: int) returns (err: Option<WalletError>)
      modifies this
      ensures err == SettleSell(old(Value()), priceCents, qty).Error()
      ensures Value() == SettleSell(old(Value()), priceCents, qty).After(old(Value()))
    {
      if priceCents <= 0 || qty <= 0 { return Some(InvalidAmount); }
      if qty > reservedVibranium { return Some(ReleaseExceedsReserve); }
      reservedVibranium := reservedVibranium - qty;
      balanceBrlCents := balanceBrlCents + priceCents * qty;
      return None;
    }
  }
}
