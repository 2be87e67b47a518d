/** Licence-plate normalisation: `normalizePlate` trims, upper-cases and keeps only the
    characters A-Z and 0-9. Plates are compared only in this form. */
module Plates {
  import opened Text

  predicate IsPlateChar(c: char) {
    'A' <= c <= 'Z' || '0' <= c <= '9'
  }

  /** A string made only of plate characters, which is what normalisation returns. */
  predicate IsNormalPlate(s: string) {
    forall i :: 0 <= i < |s| ==> IsPlateChar(s[i])
  }

  /** `replace(/[^A-Z0-9]/g, "")`: keeps the plate characters, in their order. */
  function KeepPlateChars(s: string): (r: string)
    ensures IsNormalPlate(r)
    ensures |r| <= |s|
  {
    if |s| == 0 then []
    else (if IsPlateChar(s[0]) then [s[0]] else []) + KeepPlateChars(s[1..])
  }

  /** Every plate character of `s` is kept, as often as it occurs, and every other
      character is dropped. With KeepPlateCharsSingle and KeepPlateCharsAppend this also
      fixes the order. */
  lemma {:induction false} KeepPlateCharsCounts(s: string)
    ensures forall c :: multiset(KeepPlateChars(s))[c] == if IsPlateChar(c) then multiset(s)[c] else 0
  {
    if |s| > 0 {
      assert s == [s[0]] + s[1..];
      KeepPlateCharsCounts(s[1..]);
    }
  }

  /** One character is kept when it is a plate character and dropped otherwise. */
  lemma KeepPlateCharsSingle(c: char)
    ensures KeepPlateChars([c]) == if IsPlateChar(c) then [c] else []
  {
    assert [c][1..] == [];
  }

  /** `normalizePlate(p)`. */
  function NormalizePlate(p: string): (r: string)
    ensures IsNormalPlate(r)
  {
    KeepPlateChars(UpperAscii(Trim(p)))
  }

  /** Filtering leaves a string of plate characters unchanged. */
  lemma {:induction false} KeepPlateCharsOfNormal(s: string)
    requires IsNormalPlate(s)
    ensures KeepPlateChars(s) == s
  {
    if |s| > 0 {
      assert IsNormalPlate(s[1..]);
      KeepPlateCharsOfNormal(s[1..]);
    }
  }

  /** Filtering distributes over concatenation: a character's fate does not depend on
      its neighbours. */
  lemma {:induction false} KeepPlateCharsAppend(a: string, b: string)
    ensures KeepPlateChars(a + b) == KeepPlateChars(a) + KeepPlateChars(b)
  {
    if |a| > 0 {
      assert (a + b)[1..] == a[1..] + b;
      KeepPlateCharsAppend(a[1..], b);
    } else {
      assert a + b == b;
    }
  }

  /** A normalised plate is its own normal form. */
  lemma NormalizeNormalPlate(s: string)
    requires IsNormalPlate(s)
    ensures NormalizePlate(s) == s
  {
    TrimOfTrimmed(s);
    assert UpperAscii(s) == s;
    KeepPlateCharsOfNormal(s);
  }

  /** Normalising twice is normalising once. */
  lemma NormalizePlateIdempotent(p: string)
    ensures NormalizePlate(NormalizePlate(p)) == NormalizePlate(p)
  {
    NormalizeNormalPlate(NormalizePlate(p));
  }

  /** Lower case, spaces and the dash common on plates are all absorbed. */
  lemma NormalizePlateExample()
    ensures NormalizePlate(" abc-1d23 ") == "ABC1D23"
  {
    TrimExample();
    UpperExample();
    KeepExample();
  }

  lemma TrimExample()
    ensures Trim(" abc-1d23 ") == "abc-1d23"
  {
    assert " abc-1d23 " == [' '] + "abc-1d23" + [' '];
    TrimOneSpaceEachSide("abc-1d23");
  }

  /** One blank on each side of a string that does not start or end with whitespace is
      removed. */
  lemma TrimOneSpaceEachSide(x: string)
    requires |x| > 0 && !IsJsWhiteSpace(x[0]) && !IsJsWhiteSpace(x[|x| - 1])
    ensures Trim([' '] + x + [' ']) == x
  {
    var s := [' '] + x + [' '];
    var y := x + [' '];
    assert s[1..] == y;
    assert TrimStart(y) == y;
    assert TrimStart(s) == y;
    assert y[..|y| - 1] == x;
    assert TrimEnd(x) == x;
    assert TrimEnd(y) == x;
  }

  lemma UpperExample()
    ensures UpperAscii("abc-1d23") == "ABC-1D23"
  {
  }

  lemma KeepExample()
    ensures KeepPlateChars("ABC-1D23") == "ABC1D23"
  {
    assert "ABC-1D23" == "ABC" + ['-'] + "1D23";
    KeepAroundSeparator("ABC", '-', "1D23");
  }

  /** A separator between two runs of plate characters is dropped. */
  lemma KeepAroundSeparator(a: string, c: char, b: string)
    requires IsNormalPlate(a) && IsNormalPlate(b) && !IsPlateChar(c)
    ensures KeepPlateChars(a + [c] + b) == a + b
  {
    var left := a + [c];
    KeepPlateCharsAppend(left, b);
    KeepPlateCharsAppend(a, [c]);
    KeepPlateCharsSingle(c);
    KeepPlateCharsOfNormal(a);
    KeepPlateCharsOfNormal(b);
    assert KeepPlateChars(left) == a;
  }
}
