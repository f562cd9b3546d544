/** Experience and levels: `add_exp` pays for one level after another out of the new experience. */
module RoleExp {
  import opened Options

  /** What `player_role` holds of a role. */
  datatype Role = Role(level: int, exp: int)

  /** The price of reaching a level. */
  function ExpForLevel(level: int): int {
    level * level * 100
  }

  /** The price of all levels above `low` up to `high`. */
  function Spent(low: int, high: int): int
    decreases high - low
  {
    if high <= low then 0 else Spent(low, high - 1) + ExpForLevel(high)
  }

  /** How far a role's experience carries it. */
  function Settle(r: Role): Role
    decreases if r.level < 0 then -r.level else 0, r.exp
  {
    if r.exp >= ExpForLevel(r.level + 1) then
      PriceGrows(r.level + 1);
      Settle(Role(r.level + 1, r.exp - ExpForLevel(r.level + 1)))
    else r
  }

  lemma PriceGrows(level: int)
    ensures ExpForLevel(level) >= 0
    ensures level > 0 ==> ExpForLevel(level) >= 100
  {
    if level > 0 {
      assert level * level >= 1;
    } else {
      assert level * level >= 0;
    }
  }

  lemma {:induction false} SpentFrom(low: int, high: int)
    requires low < high
    ensures Spent(low, high) == ExpForLevel(low + 1) + Spent(low + 1, high)
    decreases high - low
  {
    if low + 1 < high {
      SpentFrom(low, high - 1);
    }
  }

  lemma {:induction false} SpentGrows(low: int, mid: int, high: int)
    requires 0 <= low <= mid <= high
    ensures Spent(low, high) >= Spent(low, mid)
    decreases high - mid
  {
    if mid < high {
      PriceGrows(high);
      SpentGrows(low, mid, high - 1);
    }
  }

  /** A settled form of a role: the same total experience, with less left than the next level costs
      and, if levels were paid for, nothing owed. */
  predicate Settled(r: Role, n: Role) {
    && r.level <= n.level
    && Spent(r.level, n.level) + n.exp == r.exp
    && n.exp < ExpForLevel(n.level + 1)
    && (r.level < n.level ==> n.exp >= 0)
  }

  lemma {:induction false} SettleSettles(r: Role)
    ensures Settled(r, Settle(r))
    decreases if r.level < 0 then -r.level else 0, r.exp
  {
    if r.exp >= ExpForLevel(r.level + 1) {
      PriceGrows(r.level + 1);
      var next := Role(r.level + 1, r.exp - ExpForLevel(r.level + 1));
      SettleSettles(next);
      SpentFrom(r.level, Settle(r).level);
    }
  }

  lemma SettledUnique(r: Role, m: Role, n: Role)
    requires r.level >= 0 && Settled(r, m) && Settled(r, n)
    ensures m == n
  {
    if m.level < n.level {
      SpentGrows(r.level, m.level + 1, n.level);
    } else if n.level < m.level {
      SpentGrows(r.level, n.level + 1, m.level);
    }
  }

  /** The loop computes the one settled form there is. */
  lemma SettledIff(r: Role, n: Role)
    requires r.level >= 0
    ensures Settled(r, n) <==> n == Settle(r)
  {
    SettleSettles(r);
    if Settled(r, n) {
      SettledUnique(r, n, Settle(r));
    }
  }

  /** Adding `b` after settling, against adding it before. For `b >= 0` the two agree; a negative `b`
      agrees exactly when it does not cost a level that was paid for. */
  lemma AddTogetherIff(r: Role, b: int)
    requires r.level >= 0
    ensures var n := Settle(r);
            var apart, together := Settle(Role(n.level, n.exp + b)), Settle(Role(r.level, r.exp + b));
            apart == together <==> b >= 0 || n.level == r.level || n.exp + b >= 0
  {
    var n := Settle(r);
    SettleSettles(r);
    if b >= 0 {
      AddMore(r, b);
    } else {
      var apart := Role(n.level, n.exp + b);
      assert Settle(apart) == apart;
      SettledIff(Role(r.level, r.exp + b), apart);
    }
  }

  lemma {:induction false} AddMore(r: Role, b: int)
    requires b >= 0
    ensures var n := Settle(r);
            Settle(Role(n.level, n.exp + b)) == Settle(Role(r.level, r.exp + b))
    decreases if r.level < 0 then -r.level else 0, r.exp
  {
    if r.exp >= ExpForLevel(r.level + 1) {
      PriceGrows(r.level + 1);
      AddMore(Role(r.level + 1, r.exp - ExpForLevel(r.level + 1)), b);
    }
  }

  lemma SumStep(n: int)
    ensures (n - 1) * n * (2 * n - 1) + 6 * (n * n) == n * (n + 1) * (2 * n + 1)
  {
    var s := n * n;
    assert (n - 1) * n == s - n;
    assert (s - n) * (2 * n - 1) == 2 * (s * n) - 3 * s + n;
    assert n * (n + 1) == s + n;
    assert (s + n) * (2 * n + 1) == 2 * (s * n) + 3 * s + n;
  }

  /** The experience that buys `n` levels from level 0. */
  lemma {:induction false} SpentClosedForm(n: nat)
    ensures 6 * Spent(0, n) == 100 * (n * (n + 1) * (2 * n + 1))
  {
    if n > 0 {
      SpentClosedForm(n - 1);
      SumStep(n);
    }
  }

  /** `add_exp`; a role that is not found is left alone. Total experience is conserved, the
      remainder is below the next price, and `levelUp` tells whether the level event fires. */
  method AddExp(role: Option<Role>, exp: int) returns (r: Option<Role>, levelUp: bool)
    ensures role.None? ==> r.None? && !levelUp
    ensures role.Some? ==> r.Some? && r.value == Settle(Role(role.value.level, role.value.exp + exp))
    ensures role.Some? ==> Settled(Role(role.value.level, role.value.exp + exp), r.value)
    ensures role.Some? ==> (levelUp <==> r.value.level > role.value.level)
  {
    if role.None? {
      return None, false;
    }
    var level, newExp := role.value.level, role.value.exp + exp;
    ghost var start := Role(level, newExp);
    levelUp := false;
    while newExp >= ExpForLevel(level + 1)
      invariant Settle(Role(level, newExp)) == Settle(start)
      invariant role.value.level <= level && (levelUp <==> level > role.value.level)
      decreases if level < 0 then -level else 0, newExp
    {
      PriceGrows(level + 1);
      newExp := newExp - ExpForLevel(level + 1);
      level := level + 1;
      levelUp := true;
    }
    SettleSettles(start);
    r := Some(Role(level, newExp));
  }
}
