/** The IBAN that registration gives a new customer's first account: a fixed
    Italian prefix, bank and branch code, a zero, and an eight-digit account
    number drawn at random, left-padded with zeros to eleven digits. The
    random draw (Math.random()) is a parameter. */
module Registration {
  import opened Common

  const CountryAndCheck := "IT60X"
  const BankCode := "02008"
  const BranchCode := "01633"

  /** The sixteen characters in front of the padded account number. */
  const IbanPrefix := CountryAndCheck + BankCode + BranchCode + "0"

  /** Math.floor(10_000_000 + r * 89_999_999) for a draw r in [0, 1). */
  function AccountNumber(draw: real): (n: nat)
    requires 0.0 <= draw < 1.0
    ensures 10_000_000 <= n <= 99_999_998
  {
    var x := 10_000_000.0 + draw * 89_999_999.0;
    assert 10_000_000.0 <= x < 99_999_999.0;
    x.Floor
  }

  function GenerateIban(draw: real): string
    requires 0.0 <= draw < 1.0
  {
    IbanPrefix + PadStart(NatToString(AccountNumber(draw)), 11, '0')
  }

  /** Every generated IBAN is 27 characters: the fixed prefix, three padding
      zeros, then the eight digits of the drawn account number. */
  lemma GenerateIbanShape(draw: real)
    requires 0.0 <= draw < 1.0
    ensures var iban := GenerateIban(draw);
      && |iban| == 27
      && iban[..16] == "IT60X02008016330"
      && iban[16..19] == "000"
      && AllDigits(iban[16..])
      && DigitsValue(iban[19..]) == AccountNumber(draw)
  {
    var n := AccountNumber(draw);
    assert Pow10(7) == 10_000_000 && Pow10(8) == 100_000_000;
    NatToStringLength(n, 8);
    NatToStringValue(n);
    var digits := NatToString(n);
    var padded := PadStart(digits, 11, '0');
    assert |padded| == 11 && padded[3..] == digits;
    var iban := GenerateIban(draw);
    assert |IbanPrefix| == 16;
    assert iban[16..] == padded;
    assert iban[19..] == digits;
    assert iban[16..19] == padded[..3] == "000";
  }
}
