/** The array that collects a hash: which fields setting its `length` takes away. */
module HandlebarsHashes {
  import opened Outcomes
  import opened Numerals
  import opened HandlebarsMachine
  import opened HandlebarsTranslation

  /** The numeral of an index of an array, from `length` on. */
  ghost predicate IndexFrom(key: string, length: nat) {
    exists k: nat :: length <= k < 0xFFFF_FFFF && key == Numeral(k)
  }

  lemma {:induction false} CanonicalIs(key: string)
    requires key != "" && IsNumeral(key) && (|key| > 1 ==> key[0] != '0')
    ensures Amount(key) >= 0 && key == Numeral(Amount(key))
  {
    var most, d := key[..|key| - 1], key[|key| - 1] as int - '0' as int;
    if most == "" {
      assert Amount(key) == 10 * Amount("") + d == d;
    } else {
      assert most[0] == key[0];
      CanonicalIs(most);
      NumeralMeaning(Amount(most));
      assert Amount(key) == 10 * Amount(most) + d;
      assert key == most + [key[|key| - 1]];
    }
  }

  lemma IndexIff(key: string, length: nat)
    ensures IsArrayIndexFrom(key, length) <==> IndexFrom(key, length)
  {
    hide Amount, Numeral;
    if IsArrayIndexFrom(key, length) { CanonicalIs(key); }
    if k: nat :| length <= k < 0xFFFF_FFFF && key == Numeral(k) { OneDigitOrNoZero(k); }
  }

  lemma OneDigitOrNoZero(k: nat)
    ensures var s := Numeral(k); s != "" && IsNumeral(s) && Amount(s) == k && (|s| > 1 ==> s[0] != '0')
  {
    NumeralMeaning(k);
    NumeralLength(k, 1);
  }

  /** Setting the length takes away exactly the fields of indices that are not below it. */
  lemma {:induction false} DropIs(fields: seq<Field>, length: nat, key: string)
    ensures FieldOf(DropIndices(fields, length), key) == if IndexFrom(key, length) then None else FieldOf(fields, key)
  {
    hide IsArrayIndexFrom, IndexFrom;
    if fields != [] {
      DropIs(fields[1..], length, key);
      IndexIff(fields[0].key, length);
      if !IsArrayIndexFrom(fields[0].key, length) {
        assert DropIndices(fields, length)[1..] == DropIndices(fields[1..], length);
      } else {
        assert DropIndices(fields, length) == DropIndices(fields[1..], length);
      }
    }
  }

  /** A number is a length if it is whole, not negative and below 2^32. */
  lemma LengthIs(n: real, length: nat)
    ensures AsArrayLength(Number(n)) == Some(length) <==> length < 0x1_0000_0000 && n == length as real
    ensures AsArrayLength(Boolean(false)) == AsArrayLength(NoProgram) == Some(0)
    ensures AsArrayLength(Boolean(true)) == Some(1)
  {
    if n == length as real { assert n.Floor == length; }
  }

  /** The key `length` sets the length or stops the compilation, `__proto__` stores nothing, and any
      other key its value. */
  lemma StoredIs(fields: seq<Field>, key: string, value: JsExpr, other: string)
    ensures var r := StoreHash(fields, key, value);
            if key == "__proto__" then r == Ok(fields)
            else if key == "length" && AsArrayLength(value).None? then r == Err(InvalidArrayLength)
            else
              && r.Ok?
              && FieldOf(r.value, other)
                 == if key == "length" then
                      (if IndexFrom(other, AsArrayLength(value).value) then None else FieldOf(fields, other))
                    else if other == key then Some(value) else FieldOf(fields, other)
  {
    hide DropIndices, IndexFrom, PutField, FieldOf;
    if key == "length" && AsArrayLength(value).Some? {
      DropIs(fields, AsArrayLength(value).value, other);
    } else if key != "length" {
      PutThenFind(fields, key, value, other);
    }
  }
}
