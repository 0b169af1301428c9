/** The economy's money: one `money` row per user, created at 0 on first
    use, and the emoji that shows how a user's amount compares with the
    money of all users together. */
module Money {
  import opened Wrappers
  import opened Ledger

  /** A relative update moves the global total by exactly the amount given. */
  lemma RelativeUpdateShiftsTotal(amounts: map<int, int>, user: int, amount: int)
    ensures Total(amounts[user := Updated(Read(amounts, user), amount, true)]) == Total(amounts) + amount
  {
    TotalUpdate(amounts, user, Read(amounts, user) + amount);
  }

  /** An absolute update sets the total to what the other users have plus
      the amount given. */
  lemma AbsoluteUpdateTotal(amounts: map<int, int>, user: int, amount: int)
    ensures Total(amounts[user := Updated(Read(amounts, user), amount, false)]) ==
      Total(amounts - {user}) + amount
  {
    var after := amounts[user := amount];
    TotalRemove(after, user);
    assert after - {user} == amounts - {user};
  }

  class MoneyTable {
    /** The `money` table: the amount of each user (the user column is
        unique, so a map from user to amount). */
    var amounts: map<int, int>

    constructor (amounts: map<int, int>)
      ensures this.amounts == amounts
    {
      this.amounts := amounts;
    }

    /** `MoneyModel.get`: the user's row, created at 0 when absent. */
    method Get(user: int) returns (amount: int)
      modifies this
      ensures user in old(amounts) ==> amounts == old(amounts)
      ensures user !in old(amounts) ==> amounts == old(amounts)[user := 0]
      ensures amount == Read(old(amounts), user) && user in amounts && amounts[user] == amount
    {
      if user !in amounts {
        amounts := amounts[user := 0];
      }
      amount := amounts[user];
    }

    /** `MoneyModel.update`: only the user's row changes. */
    method Update(user: int, amount: int, relative: bool) returns (newAmount: int)
      modifies this
      ensures newAmount == Updated(Read(old(amounts), user), amount, relative)
      ensures amounts == old(amounts)[user := newAmount]
    {
      var previous := Get(user);
      newAmount := if relative then previous + amount else amount;
      amounts := amounts[user := newAmount];
    }

    /** `get_global_money`: the sum of all amounts. */
    method GlobalMoney() returns (total: int)
      ensures total == Total(amounts)
    {
      total := Sum(amounts);
    }

    /** `get_emoji`: a missing or zero global total is computed from the
        table. */
    method GetEmoji(amount: int, globalAmount: Option<int>) returns (e: Emoji)
      ensures globalAmount.Some? && globalAmount.value != 0 ==> e == Tier(amount, globalAmount.value)
      ensures !(globalAmount.Some? && globalAmount.value != 0) ==> e == Tier(amount, Total(amounts))
    {
      var g: int;
      if globalAmount.Some? && globalAmount.value != 0 {
        g := globalAmount.value;
      } else {
        g := GlobalMoney();
      }
      e := Tier(amount, g);
    }
  }

  datatype Emoji = MoneyBag | Yen | Pound | Euro | Dollar

  /** The tiers from the lowest (0) to the highest (4). */
  function Rank(e: Emoji): nat {
    match e
    case Dollar => 0
    case Euro => 1
    case Pound => 2
    case Yen => 3
    case MoneyBag => 4
  }

  /** The emoji for an amount: the first of "at least the whole", "half",
      "a quarter", "an eighth" of the global total that the amount reaches.
      `global / k <= amount` is stated as `global <= k * amount`. */
  function Tier(amount: int, global: int): (e: Emoji)
    ensures e == MoneyBag <==> global <= amount
    ensures e == Yen <==> amount < global <= 2 * amount
    ensures e == Pound <==> 2 * amount < global <= 4 * amount
    ensures e == Euro <==> 4 * amount < global <= 8 * amount
    ensures e == Dollar <==> 8 * amount < global && amount < global
  {
    if global <= amount then MoneyBag
    else if global <= 2 * amount then Yen
    else if global <= 4 * amount then Pound
    else if global <= 8 * amount then Euro
    else Dollar
  }

  /** The integer form of each threshold is the division the bot makes,
      taken exactly. */
  lemma ThresholdOverIntegers(global: int, amount: int, k: int)
    requires k > 0
    ensures (global as real) / (k as real) <= amount as real <==> global <= k * amount
  {
    var q := (global as real) / (k as real);
    assert q * (k as real) == global as real;
    assert (k * amount) as real == (k as real) * (amount as real);
    if q <= amount as real {
      assert q * (k as real) <= (amount as real) * (k as real);
    } else {
      assert q * (k as real) > (amount as real) * (k as real);
    }
  }

  /** A larger amount never gets a lower tier. */
  lemma TierMonotone(a1: int, a2: int, global: int)
    requires a1 <= a2
    ensures Rank(Tier(a1, global)) <= Rank(Tier(a2, global))
  {
  }

  /** The global total itself always gets the money bag. */
  lemma GlobalGetsMoneyBag(global: int)
    ensures Tier(global, global) == MoneyBag
  {
  }

  /** With a positive total, a user with nothing gets the dollar. */
  lemma NothingGetsDollar(global: int)
    requires global > 0
    ensures Tier(0, global) == Dollar
  {
  }
}
