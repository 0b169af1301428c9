/** Named counters in a `stats` table. The `Stats` enumeration keys each
    counter by its full name. A counter that is read or incremented and not
    yet stored is created at 0. */
module Stats {
  import opened NoAliasEnum
  import opened Ledger

  class StatsTable {
    var values: map<string, int>

    constructor (values: map<string, int>)
      ensures this.values == values
    {
      this.values := values;
    }

    /** `StatsModel.get`: the counter, created at 0 when absent. */
    method Get(name: string) returns (value: int)
      modifies this
      ensures name in old(values) ==> values == old(values)
      ensures name !in old(values) ==> values == old(values)[name := 0]
      ensures value == Read(old(values), name) && name in values && values[name] == value
    {
      if name !in values {
        values := values[name := 0];
      }
      value := values[name];
    }

    /** `StatsModel.incr`: adds `amount` to the counter and returns its new
        value; no other counter changes. */
    method Incr(name: string, amount: int) returns (value: int)
      modifies this
      ensures values == old(values)[name := Read(old(values), name) + amount]
      ensures value == Read(old(values), name) + amount
    {
      var _ := Get(name);
      values := values[name := values[name] + amount];
      value := values[name];
    }

    /** `Stats.incr`: the member's counter goes up by one. */
    method IncrMember(m: EnumMember<int>) returns (value: int)
      modifies this
      ensures values == old(values)[Fullname(m) := Read(old(values), Fullname(m)) + 1]
      ensures value == Read(old(values), Fullname(m)) + 1
    {
      value := Incr(Fullname(m), 1);
    }

    /** `Stats.reset` on the counter of that name: it is set to 0, and 0
        returned. */
    method Reset(name: string) returns (value: int)
      modifies this
      ensures values == old(values)[name := 0]
      ensures value == 0
    {
      var _ := Get(name);
      values := values[name := 0];
      value := 0;
    }

    /** `Stats.reset`: the member's counter. */
    method ResetMember(m: EnumMember<int>) returns (value: int)
      modifies this
      ensures values == old(values)[Fullname(m) := 0]
      ensures value == 0
    {
      value := Reset(Fullname(m));
    }
  }

  /** A fresh counter incremented by `v` holds `v`; a reset counter
      incremented once holds 1. */
  method FreshCounters(name: string, v: int, m: EnumMember<int>) returns (afterIncr: int, afterReset: int)
    ensures afterIncr == v
    ensures afterReset == 1
  {
    var counters := new StatsTable(map[]);
    afterIncr := counters.Incr(name, v);
    var _ := counters.ResetMember(m);
    afterReset := counters.IncrMember(m);
  }
}
