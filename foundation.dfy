/**
 * The Foundation values the decoders produce (URL, Date) and the Foundation
 * code they call. That code is not visible here, so the parsers and the
 * Double-to-Date conversion are fields of a `Platform` handed to every
 * decoder; the one conversion written out in the program itself,
 * `TimeInterval(i)` of an `Int64`, is modelled exactly.
 */
module Foundation {
  import opened Wrappers
  import opened Json

  /** A URL as `URL(string:)` builds it. */
  datatype Url = Url(absoluteString: string)

  /** A `Date`, read as its `timeIntervalSince1970` in seconds. */
  datatype Date = Date(sinceEpoch: real)

  /** 00:00:00 UTC on 1 January 1970. */
  const Epoch: Date := Date(0.0)

  /**
   * The foreign code the decoders depend on:
   * - `parseUrl` is `URL(string:)`;
   * - `parseTimestamp` is `date(from:)` of a `DateFormatter` with locale
   *   en_US_POSIX, format yyyy-MM-dd'T'HH:mm:ss'Z' and time zone UTC;
   * - `dateFromDouble` is `Date(timeIntervalSince1970:)` on a binary64 value.
   * Each is a total, deterministic function of its argument.
   */
  datatype Platform = Platform(
    parseUrl: string -> Option<Url>,
    parseTimestamp: string -> Option<Date>,
    dateFromDouble: Float64 -> Date)

  /** 2^53: binary64 has a 53-bit significand. */
  const SIGNIFICAND_RANGE: nat := 0x20_0000_0000_0000

  /** `x` has magnitude at most 2^53, where every integer is a binary64 value. */
  predicate WithinSignificand(x: int) {
    -(SIGNIFICAND_RANGE as int) <= x <= SIGNIFICAND_RANGE as int
  }

  function Pow2(e: nat): (p: nat)
    ensures p >= 1
  {
    if e == 0 then 1 else 2 * Pow2(e - 1)
  }

  /** The gap between neighbouring binary64 integers of magnitude around `m`. */
  function Spacing(m: nat): (u: nat)
    ensures u >= 1
  {
    if m < SIGNIFICAND_RANGE then 1 else 2 * Spacing(m / 2)
  }

  /** `m` rounded to a multiple of `u`, to the nearest one, ties to the even multiple. */
  function RoundHalfEven(m: nat, u: nat): nat
    requires u >= 1
  {
    var q, r := m / u, m % u;
    if 2 * r < u then q * u
    else if 2 * r > u then (q + 1) * u
    else if q % 2 == 0 then q * u
    else (q + 1) * u
  }

  /** Swift's `Double(x)` (here `TimeInterval(i)`): the binary64 value nearest to `x`, ties to even. */
  function ToBinary64(x: int): int {
    if x < 0 then -(RoundHalfEven(-x, Spacing(-x)) as int) else RoundHalfEven(x, Spacing(x))
  }

  function Abs(x: int): nat {
    if x < 0 then -x else x
  }

  /**
   * `Spacing(m)` is a power of two, and `m` needs exactly 53 significant bits
   * at that spacing: below 2^53 spacings, and (past 2^53) at least 2^52 of them.
   */
  lemma {:induction false} SpacingIsUlp(m: nat)
    ensures exists e: nat :: Spacing(m) == Pow2(e)
    ensures m < Spacing(m) * SIGNIFICAND_RANGE
    ensures m >= SIGNIFICAND_RANGE ==> Spacing(m) * (SIGNIFICAND_RANGE / 2) <= m
  {
    if m < SIGNIFICAND_RANGE {
      assert Spacing(m) == Pow2(0);
    } else {
      SpacingIsUlp(m / 2);
      var e: nat :| Spacing(m / 2) == Pow2(e);
      assert Spacing(m) == Pow2(e + 1);
    }
  }

  /**
   * `ToBinary64(x)` lies on the binary64 grid around `x` (a whole number of
   * spacings) and is at most half a spacing away from `x`, so no binary64
   * value is nearer.
   */
  lemma ToBinary64Nearest(x: int)
    ensures exists k: int :: ToBinary64(x) == k * Spacing(Abs(x))
    ensures 2 * Abs(ToBinary64(x) - x) <= Spacing(Abs(x))
  {
    var m: int, u: int := Abs(x), Spacing(Abs(x));
    var q: int := m / u;
    DivModSplit(m, u);
    NextMultiple(q, u);
    if x < 0 {
      assert ToBinary64(x) == -(q * u) || ToBinary64(x) == -((q + 1) * u);
      assert -(q * u) == (-q) * u;
      assert -((q + 1) * u) == (-(q + 1)) * u;
    }
  }

  /** The same grid fact, as a remainder: the result is divisible by the spacing. */
  lemma ToBinary64OnGrid(x: int)
    ensures ToBinary64(x) % Spacing(Abs(x)) == 0
  {
    ToBinary64Nearest(x);
    var k: int :| ToBinary64(x) == k * Spacing(Abs(x));
    MultipleMod(k, Spacing(Abs(x)));
  }

  lemma MultipleMod(k: int, u: int)
    requires u >= 1
    ensures (k * u) % u == 0
  {
    var q, r := (k * u) / u, (k * u) % u;
    assert k * u == q * u + r && 0 <= r < u;
    assert (k - q) * u == k * u - q * u;
  }

  lemma DivModSplit(m: nat, u: nat)
    requires u >= 1
    ensures m == (m / u) * u + m % u && 0 <= m % u < u
  {
  }

  lemma NextMultiple(q: int, u: int)
    ensures (q + 1) * u == q * u + u
  {
  }

  /** Every integer of magnitude at most 2^53 converts exactly. */
  lemma ToBinary64Exact(x: int)
    requires WithinSignificand(x)
    ensures ToBinary64(x) == x
  {
    var m := Abs(x);
    if m == SIGNIFICAND_RANGE {
      assert Spacing(m) == 2;
    } else {
      assert Spacing(m) == 1;
    }
  }

  /** The conversion is symmetric about zero. */
  lemma ToBinary64Odd(x: int)
    ensures ToBinary64(-x) == -ToBinary64(x)
  {
  }

  /**
   * Ties go to the even multiple: when `x` lies exactly halfway between two
   * neighbouring binary64 values, the one chosen is an even number of spacings.
   */
  lemma ToBinary64TiesToEven(x: int)
    requires 2 * Abs(ToBinary64(x) - x) == Spacing(Abs(x))
    ensures exists k: int :: ToBinary64(x) == (2 * k) * Spacing(Abs(x))
  {
    var m: int, u: int := Abs(x), Spacing(Abs(x));
    var q: int := m / u;
    DivModSplit(m, u);
    NextMultiple(q, u);
    var n: int := RoundHalfEven(m, u);
    assert ToBinary64(x) == (if x < 0 then -n else n);
    assert 2 * Abs(n - m) == u;
    assert 2 * (m % u) == u;
    var j: int := if q % 2 == 0 then q else q + 1;
    assert n == j * u;
    var k: int := if x < 0 then -(j / 2) else j / 2;
    assert j == 2 * (j / 2);
    if x < 0 {
      assert ToBinary64(x) == -(j * u);
      assert -(j * u) == (2 * k) * u;
    }
  }

  /** 2^53 + 1 lies halfway between 2^53 and 2^53 + 2 and rounds to the even 2^53. */
  lemma ToBinary64TieToEven()
    ensures ToBinary64(SIGNIFICAND_RANGE + 1) == SIGNIFICAND_RANGE
  {
    assert Spacing(SIGNIFICAND_RANGE + 1) == 2;
  }
}
