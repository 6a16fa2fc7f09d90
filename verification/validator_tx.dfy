/**
 * The text form of a validator-set change, `val:<base64 pubkey>!<power>`:
 * `MakeValSetChangeTx`, `isValidatorTx` and the parsing half of
 * `execValidatorTx`.
 */
module ValidatorTx {
  import opened Bytes
  import opened Ints
  import opened Results
  import opened Types
  import Base64
  import Decimal

  /** `"val:"`, the prefix of validator transactions and validator keys. */
  const Prefix: bytes := Ascii("val:")
  /** `'!'`, the separator between the key and the power. */
  const Bang: byte := 0x21

  lemma PrefixLength()
    ensures |Prefix| == 4
  {
  }

  /** `isValidatorTx`: the transaction starts with `val:`. */
  predicate IsValidatorTx(tx: bytes) {
    HasPrefix(tx, Prefix)
  }

  /** `MakeValSetChangeTx`: `fmt.Sprintf("val:%s!%d", base64(pubkey.Data), power)`. */
  function MakeValSetChangeTx(pubKey: PubKey, power: int64): (tx: bytes)
    ensures IsValidatorTx(tx)
  {
    Prefix + Base64.Encode(pubKey.data) + [Bang] + Decimal.Format(power)
  }

  /** The three ways `execValidatorTx` rejects its input, all answered with EncodingError. */
  datatype ParseError = NotKeyAndPower | InvalidBase64 | PowerNotInt

  /**
   * The parsing steps of `execValidatorTx`: drop `val:`, split on `!` into
   * exactly two parts, base64-decode the first and parse the second as a
   * base-10 `int64`.
   */
  function Parse(tx: bytes): (r: Result<(bytes, int64), ParseError>)
    requires IsValidatorTx(tx)
    ensures var parts := Split(tx[|Prefix|..], Bang);
            && (r == Err(NotKeyAndPower) <==> |parts| != 2)
            && (r == Err(InvalidBase64) <==> |parts| == 2 && Base64.Decode(parts[0]).None?)
            && (r == Err(PowerNotInt) <==>
                  |parts| == 2 && Base64.Decode(parts[0]).Some? && Decimal.ParseInt(parts[1]).None?)
            && (r.Ok? ==> |parts| == 2 && Base64.Decode(parts[0]) == Some(r.value.0)
                          && Decimal.ParseInt(parts[1]) == Some(r.value.1))
  {
    var parts := Split(tx[|Prefix|..], Bang);
    if |parts| != 2 then Err(NotKeyAndPower)
    else match Base64.Decode(parts[0])
      case None => Err(InvalidBase64)
      case Some(key) =>
        match Decimal.ParseInt(parts[1])
        case None => Err(PowerNotInt)
        case Some(power) => Ok((key, power))
  }

  /** No base64 or decimal text contains `!`, so the separator is found where it was put. */
  lemma {:induction false} ParseMake(pubKey: PubKey, power: int64)
    ensures Parse(MakeValSetChangeTx(pubKey, power)) == Ok((pubKey.data, power))
  {
    var key, num := Base64.Encode(pubKey.data), Decimal.Format(power);
    var tx := MakeValSetChangeTx(pubKey, power);
    assert tx[|Prefix|..] == key + [Bang] + num;
    assert Bang !in key by {
      forall i | 0 <= i < |key| ensures key[i] != Bang {
        assert Base64.IsEncodingByte(key[i]);
      }
    }
    assert Bang !in num;
    SplitTwo(key, num, Bang);
    Base64.DecodeEncode(pubKey.data);
    Decimal.ParseFormat(power);
  }
}
