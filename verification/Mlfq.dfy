/** Multi-level feedback scheduling: tick charging and demotion in usertrap, the scheduler's choice, and the
    exact order in which one CPU serves processes that are always runnable. */
module Mlfq {
  datatype Level = Level(priority: nat, ticks: nat)

  /** allocproc. */
  function Fresh(): Level { Level(0, 0) }

  /** A timer tick that usertrap charges to the running process. */
  function Charge(v: Level): Level {
    var t := v.ticks + 1;
    if v.priority == 0 && t >= 5 then Level(1, 0)
    else if v.priority == 1 && t >= 10 then Level(2, 0)
    else Level(v.priority, t)
  }

  /** The level after k charged ticks, in closed form. */
  function After(k: nat): Level {
    if k < 5 then Level(0, k) else if k < 15 then Level(1, k - 5) else Level(2, k - 15)
  }

  function Charged(k: nat): Level {
    if k == 0 then Fresh() else Charge(Charged(k - 1))
  }

  lemma {:induction false} ChargedIsAfter(k: nat)
    ensures Charged(k) == After(k)
  {
    if k > 0 { ChargedIsAfter(k - 1); }
  }

  datatype Entry = Entry(runnable: bool, level: Level)

  /** p is runnable, no runnable process has a lower priority, and p is the first of its priority. */
  ghost predicate Chosen(table: seq<Entry>, p: int) {
    && 0 <= p < |table| && table[p].runnable && table[p].level.priority < 3
    && forall i :: 0 <= i < |table| && table[i].runnable ==>
         table[p].level.priority < table[i].level.priority ||
             (table[p].level.priority == table[i].level.priority && p <= i)
  }

  /** The scan of scheduler over a table that does not change under it. */
  method Pick(table: seq<Entry>) returns (p: int)
    ensures p >= 0 ==> Chosen(table, p)
    ensures p < 0 ==> forall i :: 0 <= i < |table| && table[i].runnable ==> table[i].level.priority >= 3
  {
    var priority := 0;
    while priority < 3
      invariant 0 <= priority <= 3
      invariant forall i :: 0 <= i < |table| && table[i].runnable ==> table[i].level.priority >= priority
    {
      p := 0;
      while p < |table|
        invariant 0 <= p <= |table|
        invariant forall i :: 0 <= i < p && table[i].runnable ==> table[i].level.priority > priority
      {
        if table[p].runnable && table[p].level.priority == priority {
          return;
        }
        p := p + 1;
      }
      priority := priority + 1;
    }
    p := -1;
  }

  // ---- n fresh processes that are always runnable, on one CPU ------------------------------------------------

  ghost function TableOf(k: seq<nat>): (t: seq<Entry>)
    ensures |t| == |k| && forall i :: 0 <= i < |k| ==> t[i] == Entry(true, Charged(k[i]))
  {
    seq(|k|, i requires 0 <= i < |k| => Entry(true, Charged(k[i])))
  }

  /** A run on one CPU: k[s][i] is the number of ticks charged to process i after s turns. In each turn the
      chosen process runs; the turn ends with a charged tick, or with a yield that charges nothing. */
  ghost predicate IsRun(n: nat, k: seq<seq<nat>>) {
    && |k| > 0 && k[0] == seq(n, _ => 0)
    && forall s :: 0 <= s < |k| - 1 ==> Turn(k[s], k[s + 1])
  }

  ghost predicate Turn(a: seq<nat>, b: seq<nat>) {
    exists p :: Chosen(TableOf(a), p) && (b == a || b == a[p := a[p] + 1])
  }

  ghost function Total(k: seq<nat>): nat {
    if k == [] then 0 else Total(k[..|k| - 1]) + k[|k| - 1]
  }

  function Clamp(x: int, hi: nat): (r: nat)
    ensures r <= hi
  {
    if x < 0 then 0 else if x > hi then hi else x
  }

  /** How many of the first t ticks go to process i of n: five to each in turn, then ten to each in turn, and
      all further ones to process 0. */
  function Share(n: nat, t: nat, i: nat): nat {
    if t <= 5 * n then Clamp(t - 5 * i, 5)
    else if t <= 15 * n then 5 + Clamp(t - 5 * n - 10 * i, 10)
    else if i == 0 then t - 15 * n + 15
    else 15
  }

  ghost predicate Shared(n: nat, k: seq<nat>, t: nat) {
    |k| == n && forall i :: 0 <= i < n ==> k[i] == Share(n, t, i)
  }

  /** The process that gets tick t + 1. */
  function Turnee(n: nat, t: nat): nat
    requires n > 0
  {
    if t < 5 * n then t / 5 else if t < 15 * n then (t - 5 * n) / 10 else 0
  }

  lemma NextShare(n: nat, t: nat, i: nat)
    requires i < n
    ensures Turnee(n, t) < n
    ensures Share(n, t + 1, i) == Share(n, t, i) + if i == Turnee(n, t) then 1 else 0
  {
  }

  lemma ShareLevels(n: nat, t: nat, i: nat)
    requires i < n
    ensures var p := Turnee(n, t);
            && p < n && After(Share(n, t, p)).priority <= After(Share(n, t, i)).priority
            && (After(Share(n, t, p)).priority == After(Share(n, t, i)).priority ==> p <= i)
  {
  }

  /** Only the process whose turn it is can be chosen. */
  lemma ChosenIsTurnee(n: nat, t: nat, k: seq<nat>, p: int)
    requires n > 0 && Shared(n, k, t) && Chosen(TableOf(k), p)
    ensures p == Turnee(n, t)
  {
    var q := Turnee(n, t);
    ShareLevels(n, t, p);
    ChargedIsAfter(k[p]);
    ChargedIsAfter(k[q]);
  }

  lemma TurnShares(n: nat, t: nat, a: seq<nat>, b: seq<nat>)
    requires n > 0 && Shared(n, a, t) && Turn(a, b)
    ensures b == a || Shared(n, b, t + 1)
  {
    if b != a {
      var p :| Chosen(TableOf(a), p) && b == a[p := a[p] + 1];
      ChosenIsTurnee(n, t, a, p);
      forall i | 0 <= i < n ensures b[i] == Share(n, t + 1, i) { NextShare(n, t, i); }
    }
  }

  /** The whole schedule: after any number of turns in which t ticks were charged, process i has exactly its
      share of them. */
  lemma {:induction false} Schedule(n: nat, k: seq<seq<nat>>, s: nat) returns (t: nat)
    requires n > 0 && IsRun(n, k) && s < |k|
    ensures Shared(n, k[s], t) && t <= s
  {
    if s == 0 {
      t := 0;
    } else {
      t := Schedule(n, k, s - 1);
      assert Turn(k[s - 1], k[s]);
      TurnShares(n, t, k[s - 1], k[s]);
      if k[s] != k[s - 1] { t := t + 1; }
    }
  }

  lemma {:induction false} TotalIs(n: nat, t: nat, k: seq<nat>, m: nat)
    requires n > 0 && Shared(n, k, t) && m <= n
    ensures Total(k[..m]) == Share0(n, t, m)
  {
    if m > 0 {
      TotalIs(n, t, k, m - 1);
      assert k[..m][..m - 1] == k[..m - 1];
    }
  }

  /** Ticks of the first m processes. */
  function Share0(n: nat, t: nat, m: nat): nat {
    if t <= 5 * n then Clamp(t, 5 * m)
    else if t <= 15 * n then 5 * m + Clamp(t - 5 * n, 10 * m)
    else if m == 0 then 0
    else 15 * m + t - 15 * n
  }

  /** No process gets a sixth tick before all have five or a sixteenth before all have fifteen, and all are at
      the last level exactly from 15n ticks on. */
  lemma Fair(n: nat, k: seq<seq<nat>>, s: nat)
    requires n > 0 && IsRun(n, k) && s < |k|
    ensures |k[s]| == n
    ensures forall i, j :: 0 <= i < n && 0 <= j < n && k[s][i] > 5 ==> k[s][j] >= 5
    ensures forall i, j :: 0 <= i < n && 0 <= j < n && k[s][i] > 15 ==> k[s][j] >= 15
    ensures (forall i :: 0 <= i < n ==> Charged(k[s][i]).priority == 2) <==> Total(k[s]) >= 15 * n
    ensures Total(k[s]) == 15 * n ==> forall i :: 0 <= i < n ==> k[s][i] == 15
  {
    var t := Schedule(n, k, s);
    TotalIs(n, t, k[s], n);
    assert k[s][..n] == k[s];
    forall i | 0 <= i < n ensures Charged(k[s][i]) == After(k[s][i]) { ChargedIsAfter(k[s][i]); }
    assert t < 15 * n ==> k[s][n - 1] < 15;
  }
}
