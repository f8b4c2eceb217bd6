/** The order in which a fan-out visits n repositories: from a random start,
    `r = (r + 1) % size` before each of n calls. */
module Ring {

  /** Index visited by call `k` (counting from 0). */
  function At(start: nat, k: nat, n: nat): (r: nat)
    requires start < n && k < n
    ensures r < n
  {
    if start + 1 + k < n then start + 1 + k else start + 1 + k - n
  }

  /** The call that visits index `j`. */
  function Turn(start: nat, j: nat, n: nat): (k: nat)
    requires start < n && j < n
    ensures k < n
  {
    if start < j then j - start - 1 else j + n - start - 1
  }

  /** n calls visit every index exactly once, the start itself last. */
  lemma Coverage(start: nat, n: nat)
    requires start < n
    ensures forall k :: 0 <= k < n ==> Turn(start, At(start, k, n), n) == k
    ensures forall j :: 0 <= j < n ==> At(start, Turn(start, j, n), n) == j
    ensures At(start, n - 1, n) == start
  {
  }

  lemma StepMod(r: nat, n: nat)
    requires r < n
    ensures (r + 1) % n == if r + 1 < n then r + 1 else 0
  {
  }

  /** The value of `r` before call `k`. */
  function Before(start: nat, k: nat, n: nat): (r: nat)
    requires start < n && k <= n
    ensures r < n
  {
    if k == 0 then start else At(start, k - 1, n)
  }

  /** The loop's assignment to `r`. */
  method Advance(r: nat, n: nat, ghost start: nat, ghost k: nat) returns (r': nat)
    requires start < n && k < n && r == Before(start, k, n)
    ensures r' == At(start, k, n) == Before(start, k + 1, n)
  {
    StepMod(r, n);
    r' := (r + 1) % n;
  }

  /** Where stepping `r = (r + 1) % n` from the start leads after k + 1 steps. */
  function Stepped(start: nat, k: nat, n: nat): nat
    requires n > 0
  {
    ((if k == 0 then start else Stepped(start, k - 1, n)) + 1) % n
  }

  /** The loop's stepping reaches every index exactly once in n steps. */
  lemma {:induction false} SteppingCovers(start: nat, k: nat, n: nat)
    requires start < n && k < n
    ensures Stepped(start, k, n) == At(start, k, n)
    ensures forall j :: 0 <= j < n ==> (Stepped(start, k, n) == j <==> k == Turn(start, j, n))
  {
    StepMod(if k == 0 then start else At(start, k - 1, n), n);
    if k > 0 {
      SteppingCovers(start, k - 1, n);
    }
  }
}
