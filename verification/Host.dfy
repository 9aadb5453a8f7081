/** What every contract shares: the host's checked arithmetic and its all-or-nothing panics. */
module Host {

  type Address = nat

  datatype Option<+T> = None | Some(value: T)

  /** The messages with which the contracts panic. A panic undoes the whole call. */
  datatype Panic =
    | AmountNotPositive
    | Overflow
    | DivisionByZero
    | InsufficientBalance
    | InsufficientStake
    | InsufficientRewardPool
    | InsufficientShares
    | InsufficientCollateral
    | AssetNotConfigured
    | HealthFactorTooLow
    | PositionHealthy
    | ExceedsCloseFactor
    | InsufficientToSeize
    | PriceUnavailable
    | NotEnoughReports
    | TooManyReports
    | NotAPublisher
    | NotEnoughApprovals
    | NotAnAdmin
    | DuplicateApproval
    | NotAuthorized
    | AdminExists
    | AdminNotFound
    | BelowThreshold
    | InvalidThreshold
    | UnsortedAttestations
    | InvalidKeyIndex
    | BadSignature
    | SaltUsed

  datatype Result<+T> = Ok(value: T) | Revert(why: Panic) {
    predicate IsFailure() {
      Revert?
    }

    function PropagateFailure<U>(): Result<U>
      requires Revert?
    {
      Revert(why)
    }

    function Extract(): T
      requires Ok?
    {
      value
    }
  }

  const I128_MAX: int := 0x7fff_ffff_ffff_ffff_ffff_ffff_ffff_ffff

  predicate Fits(x: int) {
    -I128_MAX - 1 <= x <= I128_MAX
  }

  /** `checked_add`, `checked_mul`, ... followed by `expect`. */
  function Checked(x: int): Result<int> {
    if Fits(x) then Ok(x) else Revert(Overflow)
  }

  /** Division of `i128`, which truncates toward zero. */
  function Quot(a: int, b: int): int
    requires b > 0
  {
    if a >= 0 then a / b else -((-a) / b)
  }

  function Max(a: int, b: int): int {
    if a < b then b else a
  }

  function Min(a: int, b: int): int {
    if a < b then a else b
  }

  lemma DivBounds(a: int, b: int)
    requires b > 0
    ensures a / b * b <= a < a / b * b + b
  {
    assert a == a / b * b + a % b;
  }

  /** The two inequalities that pin a floored quotient. */
  lemma QuotBounds(a: int, b: int)
    requires a >= 0 && b > 0
    ensures Quot(a, b) >= 0
    ensures Quot(a, b) * b <= a < Quot(a, b) * b + b
  {
    DivBounds(a, b);
    var q := a / b;
    assert Quot(a, b) == q;
    if q < 0 {
      MulMono(q, -1, b);
    }
  }

  lemma QuotUnique(a: int, b: int, q: int)
    requires a >= 0 && b > 0
    requires q * b <= a < q * b + b
    ensures Quot(a, b) == q
  {
    QuotBounds(a, b);
    QuotientsMeet(q, Quot(a, b), a, b);
  }

  /** Two integers that both satisfy the floor inequalities are equal. */
  lemma QuotientsMeet(q: int, r: int, a: int, b: int)
    requires b > 0
    requires q * b <= a < q * b + b
    requires r * b <= a < r * b + b
    ensures q == r
  {
    if q < r {
      MulMono(q + 1, r, b);
    } else if r < q {
      MulMono(r + 1, q, b);
    }
  }

  lemma QuotMono(a: int, c: int, b: int)
    requires 0 <= a <= c && b > 0
    ensures Quot(a, b) <= Quot(c, b)
  {
    QuotBounds(a, b);
    QuotBounds(c, b);
    var q, r := Quot(a, b), Quot(c, b);
    if r < q {
      MulMono(r + 1, q, b);
    }
  }

  /** Flooring a sum loses at most one unit against flooring its parts. */
  lemma QuotSplit(a: int, c: int, b: int)
    requires a >= 0 && c >= 0 && b > 0
    ensures Quot(a, b) + Quot(c, b) <= Quot(a + c, b) <= Quot(a, b) + Quot(c, b) + 1
  {
    QuotBounds(a, b);
    QuotBounds(c, b);
    QuotBounds(a + c, b);
    var p, q, r := Quot(a, b), Quot(c, b), Quot(a + c, b);
    FloorsOfParts(p, q, r, a, c, b);
  }

  lemma FloorsOfParts(p: int, q: int, r: int, a: int, c: int, b: int)
    requires b > 0
    requires p * b <= a < p * b + b
    requires q * b <= c < q * b + b
    requires r * b <= a + c < r * b + b
    ensures p + q <= r <= p + q + 1
  {
    if r < p + q {
      MulMono(r + 1, p + q, b);
    } else if r > p + q + 1 {
      MulMono(p + q + 2, r, b);
    }
  }

  lemma MulMono(a: int, c: int, b: int)
    requires a <= c && b >= 0
    ensures a * b <= c * b && b * a <= b * c
  {
    assert (c - a) * b >= 0;
  }

  lemma MulCancel(a: int, c: int, b: int)
    requires a * b <= c * b && b > 0
    ensures a <= c
  {
    if a > c {
      MulMono(c + 1, a, b);
    }
  }
}
