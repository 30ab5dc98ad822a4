/** Small vocabulary shared by every component of the model. */
module Basics {

  type Slot = nat

  datatype Option<+T> = None | Some(value: T)

  lemma {:induction false} Grows(n: int, k: int)
    requires n > 0 && k >= 0
    ensures n * (k + 1) >= n && n * (-k - 1) <= -n
    decreases k
  {
    if k > 0 {
      Grows(n, k - 1);
    }
  }

  /** A non-zero number of laps around a ring of `n` cells covers at least `n` positions. */
  lemma WholeLaps(n: int, laps: int)
    requires n > 0
    ensures laps > 0 ==> n * laps >= n
    ensures laps < 0 ==> n * laps <= -n
  {
    if laps > 0 {
      Grows(n, laps - 1);
    } else if laps < 0 {
      Grows(n, -laps - 1);
    }
  }

  /** Two positions that fall on the same cell of a ring of `n` cells and are less than one lap
      apart are the same position. */
  lemma SameCell(a: int, b: int, n: int)
    requires n > 0 && a % n == b % n && -n < a - b < n
    ensures a == b
  {
    assert a - b == n * (a / n - b / n);
    WholeLaps(n, a / n - b / n);
  }

  /** One full lap around a ring of `n` cells leads back to the same cell. */
  lemma OneLap(a: int, n: int)
    requires n > 0
    ensures (a + n) % n == a % n
  {
    var q := a / n;
    assert a + n == n * (q + 1) + a % n;
    LapRemainder(n, q + 1, a % n);
  }

  lemma LapRemainder(n: int, q: int, r: int)
    requires n > 0 && 0 <= r < n
    ensures (n * q + r) % n == r
  {
    var x := n * q + r;
    assert x == n * (x / n) + x % n;
    assert n * (x / n - q) == r - x % n;
    WholeLaps(n, x / n - q);
  }

  lemma LeastExists(s: set<nat>, k: nat)
    requires k in s
    ensures exists m :: m in s && forall j :: j in s ==> m <= j
    decreases k
  {
    if j :| j in s && j < k {
      LeastExists(s, j);
    }
  }

  /** First key of an ordered map. */
  function Least(s: set<nat>): (k: nat)
    requires s != {}
    ensures k in s && forall j :: j in s ==> k <= j
  {
    assert exists m :: m in s && (forall j :: j in s ==> m <= j) by {
      var k :| k in s;
      LeastExists(s, k);
    }
    var k :| k in s && forall j :: j in s ==> k <= j;
    k
  }

  lemma GreatestExists(s: set<nat>)
    requires s != {}
    ensures exists m :: m in s && forall j :: j in s ==> j <= m
    decreases s
  {
    var k :| k in s;
    var above := set j | j in s && j > k;
    if above != {} {
      assert k !in above;
      GreatestExists(above);
      var m :| m in above && forall j :: j in above ==> j <= m;
      forall j | j in s
        ensures j <= m
      {
        assert j > k ==> j in above;
      }
    } else {
      forall j | j in s
        ensures j <= k
      {
        assert j > k ==> j in above;
      }
    }
  }

  /** Last key of an ordered map. */
  function Greatest(s: set<nat>): (k: nat)
    requires s != {}
    ensures k in s && forall j :: j in s ==> j <= k
  {
    GreatestExists(s);
    var k :| k in s && forall j :: j in s ==> j <= k;
    k
  }

  /** Pops the first key of an ordered map for as long as it is at most `bound`. */
  method PopThrough<V>(m: map<Slot, V>, bound: Slot) returns (r: map<Slot, V>)
    ensures r == map s | s in m && s > bound :: m[s]
  {
    r := m;
    while r != map[] && Least(r.Keys) <= bound
      invariant forall s :: s in r ==> s in m && r[s] == m[s]
      invariant forall s :: s in m && s > bound ==> s in r
      decreases |r|
    {
      var s := Least(r.Keys);
      assert r.Keys - {s} == (r - {s}).Keys;
      r := r - {s};
    }
    if r != map[] {
      assert forall s :: s in r ==> Least(r.Keys) <= s;
    }
  }
}
