/** The two normalisers of the second webhook: a licence plate loses its white space and
    dashes and is upper-cased; a phone number keeps only its digits. */
module WebhookV2 {
  import opened Text

  /** The characters `/\s|-/g` leaves in place. */
  predicate KeptInPlate(c: char) {
    !IsWhitespace(c) && c != '-'
  }

  /** `toUpperCase` of one character, for Basic Latin and Latin-1: `ß` becomes `SS`,
      `ÿ` and `µ` map outside Latin-1, and every other character is unchanged. */
  function UpperOf(c: char): (r: string)
    ensures 1 <= |r| <= 2
  {
    if 'a' <= c <= 'z' then [(c as int - 32) as char]
    else if c == 'ß' then "SS"
    else if ('à' <= c <= 'þ') && c != '÷' then [(c as int - 32) as char]
    else if c == 'ÿ' then ['Ÿ']
    else if c == 'µ' then ['Μ']
    else [c]
  }

  /** An upper-case character: one `toUpperCase` leaves as it is. */
  predicate IsUpper(c: char) {
    UpperOf(c) == [c]
  }

  /** Upper-casing gives upper-case characters, and neither white space nor a dash from
      a character that was neither. */
  lemma UpperOfChars(c: char)
    ensures forall i :: 0 <= i < |UpperOf(c)| ==> IsUpper(UpperOf(c)[i])
    ensures KeptInPlate(c) ==> forall i :: 0 <= i < |UpperOf(c)| ==> KeptInPlate(UpperOf(c)[i])
  {
  }

  /** `toUpperCase` of a string, character by character. */
  function ToUpper(s: string): string {
    if s == [] then [] else UpperOf(s[0]) + ToUpper(s[1..])
  }

  /** Upper-casing works character by character: the halves of a string can be
      upper-cased separately. */
  lemma {:induction false} ToUpperAppend(a: string, b: string)
    ensures ToUpper(a + b) == ToUpper(a) + ToUpper(b)
  {
    if a == [] {
      assert a + b == b;
    } else {
      assert (a + b)[0] == a[0] && (a + b)[1..] == a[1..] + b;
      ToUpperAppend(a[1..], b);
    }
  }

  predicate AllUpper(s: string) {
    forall i :: 0 <= i < |s| ==> IsUpper(s[i])
  }

  predicate AllKept(s: string) {
    forall i :: 0 <= i < |s| ==> KeptInPlate(s[i])
  }

  /** The characters of an upper-cased string are upper case, and it holds neither white
      space nor a dash when the original held none. */
  lemma {:induction false} ToUpperChars(s: string)
    ensures AllUpper(ToUpper(s))
    ensures AllKept(s) ==> AllKept(ToUpper(s))
  {
    if s != [] {
      ToUpperChars(s[1..]);
      UpperOfChars(s[0]);
      var u, t := UpperOf(s[0]), ToUpper(s[1..]);
      assert ToUpper(s) == u + t;
      forall i | 0 <= i < |u + t| ensures IsUpper((u + t)[i]) {
        if i < |u| { assert (u + t)[i] == u[i]; } else { assert (u + t)[i] == t[i - |u|]; }
      }
      if AllKept(s) {
        assert KeptInPlate(s[0]);
        assert AllKept(s[1..]) by {
          forall i | 0 <= i < |s[1..]| ensures KeptInPlate(s[1..][i]) {
            assert s[1..][i] == s[i + 1];
          }
        }
        forall i | 0 <= i < |u + t| ensures KeptInPlate((u + t)[i]) {
          if i < |u| { assert (u + t)[i] == u[i]; } else { assert (u + t)[i] == t[i - |u|]; }
        }
      }
    }
  }

  /** Upper-casing an upper-case string changes nothing. */
  lemma {:induction false} ToUpperOfUpper(s: string)
    requires AllUpper(s)
    ensures ToUpper(s) == s
  {
    if s != [] {
      assert AllUpper(s[1..]) by {
        forall i | 0 <= i < |s[1..]| ensures IsUpper(s[1..][i]) {
          assert s[1..][i] == s[i + 1];
        }
      }
      ToUpperOfUpper(s[1..]);
      assert [s[0]] + s[1..] == s;
    }
  }

  /** `normalizarPlaca`: white space and dashes removed, then upper-cased. */
  function NormalizarPlaca(answer: string): (r: string)
    ensures AllKept(r) && AllUpper(r)
  {
    var kept := Filter(answer, KeptInPlate);
    ToUpperChars(kept);
    ToUpper(kept)
  }

  /** The plate is built answer character by answer character: normalising two pieces of
      an answer separately and joining them is normalising the whole, so the characters
      kept stay in the order the answer gives them. */
  lemma NormalizarPlacaAppend(a: string, b: string)
    ensures NormalizarPlaca(a + b) == NormalizarPlaca(a) + NormalizarPlaca(b)
  {
    FilterAppend(a, b, KeptInPlate);
    ToUpperAppend(Filter(a, KeptInPlate), Filter(b, KeptInPlate));
  }

  /** One character of the answer: white space and dashes vanish, anything else is
      upper-cased. */
  lemma NormalizarPlacaChar(c: char)
    ensures NormalizarPlaca([c]) == if KeptInPlate(c) then UpperOf(c) else []
  {
    assert [c][1..] == [];
    assert Filter([c], KeptInPlate) == if KeptInPlate(c) then [c] else [];
    assert ToUpper([c]) == UpperOf(c) + ToUpper([]);
    assert UpperOf(c) + [] == UpperOf(c);
  }

  /** Normalising a plate twice is normalising it once. */
  lemma NormalizarPlacaIdempotent(answer: string)
    ensures NormalizarPlaca(NormalizarPlaca(answer)) == NormalizarPlaca(answer)
  {
    var r := NormalizarPlaca(answer);
    FilterAllKept(r, KeptInPlate);
    ToUpperOfUpper(r);
  }

  /** `normalizarTelefone`: the digits of the number, in order. */
  function NormalizarTelefone(phonenumber: string): (r: string)
    ensures AllDigits(r)
    ensures AllDigits(phonenumber) ==> r == phonenumber
  {
    var r := KeepDigits(phonenumber);
    assert AllDigits(phonenumber) ==> r == phonenumber by {
      if AllDigits(phonenumber) { KeepDigitsOfDigits(phonenumber); }
    }
    r
  }

  /** The normalised phone holds only digits, every digit of the input as often as it
      occurs and in the input's order, and normalising it again changes nothing. */
  lemma NormalizarTelefoneDigits(phonenumber: string)
    ensures var r := NormalizarTelefone(phonenumber);
      AllDigits(r) && IsSubsequence(r, phonenumber) &&
      (forall c :: IsDigit(c) ==> multiset(r)[c] == multiset(phonenumber)[c]) &&
      NormalizarTelefone(r) == r
  {
    KeepDigitsOfDigits(KeepDigits(phonenumber));
  }
}
