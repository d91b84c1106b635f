/** Coins on the wire: decimal text to unbounded integers and back. */
module CoinText {
  import opened Prelude
  import opened Caveats
  import opened Svpdt
  import opened Text
  import Decimal

  datatype WireCoin = WireCoin(denom: string, amount: string)

  function ToDTCoins(lib: Library, c: WireCoin): Option<Coins> {
    match Decimal.ParseInt(TrimSpace(c.amount))
    case None => None
    case Some(n) => lib.newCoins(TrimSpace(c.denom), n)
  }

  function View(c: Coin): WireCoin {
    WireCoin(c.denom, Decimal.PrintInt(c.amount))
  }

  function Views(cs: Coins): seq<WireCoin> {
    seq(|cs|, i requires 0 <= i < |cs| => View(cs[i]))
  }

  method CoinsView(cs: Coins) returns (out: seq<WireCoin>)
    ensures out == Views(cs)
  {
    out := [];
    for i := 0 to |cs|
      invariant out == Views(cs[..i])
    {
      out := out + [WireCoin(cs[i].denom, Decimal.PrintInt(cs[i].amount))];
    }
    assert cs[..|cs|] == cs;
  }

  lemma {:induction false} DigitsEndInDigit(n: nat)
    ensures Decimal.IsDigit(Last(Decimal.PrintNat(n)))
  {}

  lemma PrintedIsTrimmed(n: int)
    ensures Trimmed(Decimal.PrintInt(n))
  {
    if n < 0 {
      Decimal.NatRoundTrip(-n);
      DigitsEndInDigit(-n);
    } else {
      Decimal.NatRoundTrip(n);
      DigitsEndInDigit(n);
    }
  }

  /** Every printed coin reads back as the same coin exactly when its denomination has no outer
      blanks: reading trims the denomination, printing does not. */
  lemma ViewRoundTrip(lib: Library, c: Coin)
    requires BuildsWhatItIsGiven(lib) && c.amount > 0
    requires lib.newCoins(TrimSpace(c.denom), c.amount).Some?
    ensures ToDTCoins(lib, View(c)).Some?
    ensures (forall d: string :: Amount(ToDTCoins(lib, View(c)).value, d) == Amount([c], d))
            <==> Trimmed(c.denom)
  {
    var n: int := c.amount;
    PrintedIsTrimmed(n);
    TrimSpaceFixedPoint(Decimal.PrintInt(n));
    Decimal.RoundTrip(n);
    TrimSpaceFixedPoint(c.denom);
    var back := ToDTCoins(lib, View(c));
    assert back == lib.newCoins(TrimSpace(c.denom), n);
    assert Amount([c], c.denom) == n;
    forall d: string ensures Amount([c], d) == if d == c.denom then n else 0 {
      assert [c][1..] == [];
    }
    if !Trimmed(c.denom) {
      assert Amount(back.value, c.denom) == 0;
    }
  }

  /** The i-th printed coin is the i-th coin: its own denomination, and an amount that reads back
      as its own and is written with no sign and no leading zero. */
  lemma ViewsNameEachCoin(cs: Coins, i: nat)
    requires i < |cs|
    ensures |Views(cs)| == |cs| && Views(cs)[i].denom == cs[i].denom
    ensures Decimal.ParseInt(Views(cs)[i].amount) == Some(cs[i].amount)
    ensures Decimal.IsDigit(Views(cs)[i].amount[0]) && Decimal.StripZeros(Views(cs)[i].amount) == Views(cs)[i].amount
  {
    var n: int := cs[i].amount;
    Decimal.RoundTrip(n);
    Decimal.NatRoundTrip(n);
    Decimal.PrintsCanonical(Decimal.PrintInt(n));
  }

  /** What a read amount prints as: its text without outer blanks, plus sign or leading zeros. */
  lemma ReadPrintsCanonical(lib: Library, w: WireCoin)
    requires BuildsWhatItIsGiven(lib) && ToDTCoins(lib, w).Some?
    ensures Decimal.PrintInt(Amount(ToDTCoins(lib, w).value, TrimSpace(w.denom)))
            == Decimal.Canonical(TrimSpace(w.amount))
    ensures forall d: string :: d != TrimSpace(w.denom) ==> Amount(ToDTCoins(lib, w).value, d) == 0
  {
    var n := Decimal.ParseInt(TrimSpace(w.amount)).value;
    assert lib.newCoins(TrimSpace(w.denom), n).Some?;
    Decimal.PrintsCanonical(TrimSpace(w.amount));
  }
}
