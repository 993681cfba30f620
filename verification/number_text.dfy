/**
 * `translate_number_to_text` of backend/utils/text.py: a space between
 * letters and digits in both orders, then every stand-alone digit run
 * spelled out. `num2words` is the parameter `words`; the class `\w` is the
 * parameter `isWord`, constrained by `WordClass`.
 */
module NumberText {
  import opened Strings

  // ---------------------------------------------------------------- the two separating substitutions

  /**
   * `re.sub(r'([P])([Q])', r'\1 \2', s)`: scanning left to right, each
   * pair of a `p` character followed by a `q` character gets a space in
   * between, and the scan resumes after the pair.
   */
  function SubPairs(s: string, p: char -> bool, q: char -> bool): (r: string)
    ensures |r| >= |s|
    ensures s != [] ==> r != [] && r[0] == s[0]
    decreases |s|
  {
    if |s| >= 2 && p(s[0]) && q(s[1]) then [s[0], ' ', s[1]] + SubPairs(s[2..], p, q)
    else if s == [] then []
    else [s[0]] + SubPairs(s[1..], p, q)
  }

  /** No `p` character is directly followed by a `q` character. */
  predicate NoPair(s: string, p: char -> bool, q: char -> bool) {
    forall k :: 0 <= k < |s| - 1 ==> !(p(s[k]) && q(s[k + 1]))
  }

  /** Two character classes that share no character and do not contain the space. */
  predicate Apart(p: char -> bool, q: char -> bool) {
    !p(' ') && !q(' ') && forall c :: !(p(c) && q(c))
  }

  /** The separating space after each character: present exactly where a `p` meets a `q`. */
  function Gap(s: string, k: nat, p: char -> bool, q: char -> bool): string
    requires k < |s|
  {
    if k + 1 < |s| && p(s[k]) && q(s[k + 1]) then " " else ""
  }

  /** The reference: every character of `s`, each followed by its gap. */
  function Spaced(s: string, p: char -> bool, q: char -> bool): string
    decreases |s|
  {
    if s == [] then [] else [s[0]] + Gap(s, 0, p, q) + Spaced(s[1..], p, q)
  }

  /** The substitution is the reference: no pair is missed, no other space is added. */
  lemma {:induction false} SubPairsSpaced(s: string, p: char -> bool, q: char -> bool)
    requires Apart(p, q)
    ensures SubPairs(s, p, q) == Spaced(s, p, q)
    decreases |s|
  {
    if |s| >= 2 && p(s[0]) && q(s[1]) {
      SubPairsSpaced(s[2..], p, q);
      var rest := Spaced(s[2..], p, q);
      assert s[1..][1..] == s[2..];
      assert !p(s[1]);
      assert Gap(s[1..], 0, p, q) == "";
      assert Spaced(s[1..], p, q) == [s[1]] + rest;
      assert Gap(s, 0, p, q) == " ";
      assert Spaced(s, p, q) == [s[0]] + " " + ([s[1]] + rest);
      assert [s[0]] + " " + ([s[1]] + rest) == [s[0], ' ', s[1]] + rest;
    } else if s != [] {
      SubPairsSpaced(s[1..], p, q);
      assert Gap(s, 0, p, q) == "";
      assert Spaced(s, p, q) == [s[0]] + "" + Spaced(s[1..], p, q);
      assert [s[0]] + "" + Spaced(s[1..], p, q) == [s[0]] + Spaced(s[1..], p, q);
    }
  }

  /** After the substitution no `p` character is followed by a `q` character. */
  lemma {:induction false} SubPairsSeparates(s: string, p: char -> bool, q: char -> bool)
    requires Apart(p, q)
    ensures NoPair(SubPairs(s, p, q), p, q)
    decreases |s|
  {
    var r := SubPairs(s, p, q);
    if |s| >= 2 && p(s[0]) && q(s[1]) {
      SubPairsSeparates(s[2..], p, q);
      var rest := SubPairs(s[2..], p, q);
      assert r == [s[0], ' ', s[1]] + rest;
      forall k | 0 <= k < |r| - 1 ensures !(p(r[k]) && q(r[k + 1])) {
        if k >= 3 {
          assert r[k] == rest[k - 3] && r[k + 1] == rest[k - 2];
        }
      }
    } else if s != [] {
      SubPairsSeparates(s[1..], p, q);
      var rest := SubPairs(s[1..], p, q);
      assert r == [s[0]] + rest;
      forall k | 0 <= k < |r| - 1 ensures !(p(r[k]) && q(r[k + 1])) {
        if k >= 1 {
          assert r[k] == rest[k - 1] && r[k + 1] == rest[k];
        }
      }
    }
  }

  /** The substitution only adds spaces, so it creates no pair of two other classes. */
  lemma {:induction false} SubPairsKeepsNoPair(s: string, p: char -> bool, q: char -> bool,
                                                a: char -> bool, b: char -> bool)
    requires !a(' ') && !b(' ') && NoPair(s, a, b)
    ensures NoPair(SubPairs(s, p, q), a, b)
    decreases |s|
  {
    var r := SubPairs(s, p, q);
    if |s| >= 2 && p(s[0]) && q(s[1]) {
      assert NoPair(s[2..], a, b) by {
        forall k | 0 <= k < |s[2..]| - 1 ensures !(a(s[2..][k]) && b(s[2..][k + 1])) {
          assert s[2..][k] == s[k + 2] && s[2..][k + 1] == s[k + 3];
        }
      }
      SubPairsKeepsNoPair(s[2..], p, q, a, b);
      var rest := SubPairs(s[2..], p, q);
      assert r == [s[0], ' ', s[1]] + rest;
      forall k | 0 <= k < |r| - 1 ensures !(a(r[k]) && b(r[k + 1])) {
        if k >= 3 {
          assert r[k] == rest[k - 3] && r[k + 1] == rest[k - 2];
        } else if k == 2 && |s| > 2 {
          assert r[3] == s[2];
        }
      }
    } else if s != [] {
      assert NoPair(s[1..], a, b) by {
        forall k | 0 <= k < |s[1..]| - 1 ensures !(a(s[1..][k]) && b(s[1..][k + 1])) {
          assert s[1..][k] == s[k + 1] && s[1..][k + 1] == s[k + 2];
        }
      }
      SubPairsKeepsNoPair(s[1..], p, q, a, b);
      var rest := SubPairs(s[1..], p, q);
      assert r == [s[0]] + rest;
      forall k | 0 <= k < |r| - 1 ensures !(a(r[k]) && b(r[k + 1])) {
        if k >= 1 {
          assert r[k] == rest[k - 1] && r[k + 1] == rest[k];
        } else if |s| > 1 {
          assert r[1] == s[1];
        }
      }
    }
  }

  predicate NoDigit(s: string) {
    forall k :: 0 <= k < |s| ==> !IsDigit(s[k])
  }

  /** Text without a pair to separate is left as it is. */
  lemma {:induction false} SubPairsNoOp(s: string, p: char -> bool, q: char -> bool)
    requires NoPair(s, p, q)
    ensures SubPairs(s, p, q) == s
    decreases |s|
  {
    if s != [] {
      assert forall k :: 0 <= k < |s[1..]| ==> s[1..][k] == s[k + 1];
      SubPairsNoOp(s[1..], p, q);
      assert [s[0]] + s[1..] == s;
    }
  }

  /** The substitution adds only spaces: it keeps the text free of digits. */
  lemma {:induction false} SubPairsNoDigit(s: string, p: char -> bool, q: char -> bool)
    requires NoDigit(s)
    ensures NoDigit(SubPairs(s, p, q))
    decreases |s|
  {
    if |s| >= 2 && p(s[0]) && q(s[1]) {
      assert NoDigit(s[2..]) by {
        forall k | 0 <= k < |s[2..]| ensures !IsDigit(s[2..][k]) {
          assert s[2..][k] == s[k + 2];
        }
      }
      SubPairsNoDigit(s[2..], p, q);
    } else if s != [] {
      assert NoDigit(s[1..]) by {
        forall k | 0 <= k < |s[1..]| ensures !IsDigit(s[1..][k]) {
          assert s[1..][k] == s[k + 1];
        }
      }
      SubPairsNoDigit(s[1..], p, q);
    }
  }

  /** Lines 6 and 7: letters then digits, then digits then letters. */
  function Separate(text: string): string {
    SubPairs(SubPairs(text, IsAsciiLetter, IsDigit), IsDigit, IsAsciiLetter)
  }

  lemma LettersAndDigitsApart()
    ensures Apart(IsAsciiLetter, IsDigit) && Apart(IsDigit, IsAsciiLetter)
  {
  }

  /** After both substitutions no ASCII letter touches a digit, in either order. */
  lemma SeparateSeparates(text: string)
    ensures NoPair(Separate(text), IsAsciiLetter, IsDigit)
    ensures NoPair(Separate(text), IsDigit, IsAsciiLetter)
  {
    LettersAndDigitsApart();
    var once := SubPairs(text, IsAsciiLetter, IsDigit);
    SubPairsSeparates(text, IsAsciiLetter, IsDigit);
    SubPairsKeepsNoPair(once, IsDigit, IsAsciiLetter, IsAsciiLetter, IsDigit);
    SubPairsSeparates(once, IsDigit, IsAsciiLetter);
  }

  // ---------------------------------------------------------------- spelling out numbers

  /** Length of the digit run at the start of `s`. */
  function DigitRun(s: string): (n: nat)
    ensures n <= |s|
    ensures forall k :: 0 <= k < n ==> IsDigit(s[k])
    ensures n < |s| ==> !IsDigit(s[n])
  {
    if s == [] || !IsDigit(s[0]) then 0 else 1 + DigitRun(s[1..])
  }

  lemma {:induction false} DigitRunOf(d: string, t: string)
    requires AllDigits(d) && (t == [] || !IsDigit(t[0]))
    ensures DigitRun(d + t) == |d|
    decreases |d|
  {
    if d != [] {
      assert (d + t)[1..] == d[1..] + t;
      DigitRunOf(d[1..], t);
    } else {
      assert d + t == t;
    }
  }

  /**
   * `re.sub(r'\b\d+\b', replace_number, s)`, where `afterWord` tells
   * whether the character before `s` is a `\w` character. A digit run
   * matches only whole: it needs a boundary before it (a non-word
   * character or the start) and after it (a non-word character or the
   * end); inside a run both sides are word characters, so a run glued to
   * a word character is left as it is.
   */
  function SpellNumbers(s: string, afterWord: bool, isWord: char -> bool, words: nat -> string): string
    decreases |s|
  {
    if s == [] then []
    else if IsDigit(s[0]) && !afterWord then
      var n := DigitRun(s);
      (if n == |s| || !isWord(s[n]) then words(DigitsValue(s[..n])) else s[..n])
        + SpellNumbers(s[n..], true, isWord, words)
    else [s[0]] + SpellNumbers(s[1..], isWord(s[0]), isWord, words)
  }

  /** Is the last character of `s` a word character (`afterWord` for an empty `s`)? */
  function EndsInWord(s: string, afterWord: bool, isWord: char -> bool): bool {
    if s == [] then afterWord else isWord(s[|s| - 1])
  }

  /** A character other than a digit is kept. */
  lemma KeepsOther(c: char, t: string, afterWord: bool, isWord: char -> bool, words: nat -> string)
    requires !IsDigit(c)
    ensures SpellNumbers([c] + t, afterWord, isWord, words) == [c] + SpellNumbers(t, isWord(c), isWord, words)
  {
    assert ([c] + t)[1..] == t;
  }

  /** A whole digit run is spelled out exactly when word boundaries surround it; otherwise it is kept. */
  lemma SpellsRun(d: string, t: string, afterWord: bool, isWord: char -> bool, words: nat -> string)
    requires WordClass(isWord) && d != [] && AllDigits(d) && (t == [] || !IsDigit(t[0]))
    ensures SpellNumbers(d + t, afterWord, isWord, words)
         == (if !afterWord && (t == [] || !isWord(t[0])) then words(DigitsValue(d)) else d)
            + SpellNumbers(t, true, isWord, words)
  {
    if afterWord {
      assert forall k :: 0 <= k < |d| ==> isWord(d[k]);
      RunAfterWord(d, t, isWord, words);
    } else {
      DigitRunOf(d, t);
      assert (d + t)[..|d|] == d && (d + t)[|d|..] == t;
    }
  }

  /** After a word character a digit run is copied digit by digit. */
  lemma {:induction false} RunAfterWord(d: string, t: string, isWord: char -> bool, words: nat -> string)
    requires AllDigits(d) && forall k :: 0 <= k < |d| ==> isWord(d[k])
    ensures SpellNumbers(d + t, true, isWord, words) == d + SpellNumbers(t, true, isWord, words)
    decreases |d|
  {
    if d != [] {
      assert (d + t)[1..] == d[1..] + t;
      RunAfterWord(d[1..], t, isWord, words);
    } else {
      assert d + t == t;
    }
  }

  /** Text without digits is left as it is. */
  lemma {:induction false} SpellNoDigits(s: string, afterWord: bool, isWord: char -> bool, words: nat -> string)
    requires NoDigit(s)
    ensures SpellNumbers(s, afterWord, isWord, words) == s
    decreases |s|
  {
    if s != [] {
      assert forall k :: 0 <= k < |s[1..]| ==> s[1..][k] == s[k + 1];
      SpellNoDigits(s[1..], isWord(s[0]), isWord, words);
      assert [s[0]] + s[1..] == s;
    }
  }

  /**
   * `translate_number_to_text`: separate letters from digits, then spell
   * out the stand-alone digit runs.
   */
  function TranslateNumberToText(text: string, isWord: char -> bool, words: nat -> string): string {
    SpellNumbers(Separate(text), false, isWord, words)
  }

  /** Text without digits comes back unchanged. */
  lemma TranslateNoDigits(text: string, isWord: char -> bool, words: nat -> string)
    requires NoDigit(text)
    ensures TranslateNumberToText(text, isWord, words) == text
  {
    SubPairsNoOp(text, IsAsciiLetter, IsDigit);
    SubPairsNoOp(text, IsDigit, IsAsciiLetter);
    SpellNoDigits(text, false, isWord, words);
  }

  /**
   * A run glued to a word character that is no ASCII letter (such as '_'
   * in "x_12") has no word boundary before it and stays as digits.
   */
  lemma GluedRunKept(w: char, d: string, isWord: char -> bool, words: nat -> string)
    requires WordClass(isWord) && isWord(w) && !IsAsciiLetter(w) && !IsDigit(w)
    requires d != [] && AllDigits(d)
    ensures TranslateNumberToText([w] + d, isWord, words) == [w] + d
  {
    var s := [w] + d;
    assert forall k :: 0 <= k < |s| ==> !IsAsciiLetter(s[k]) by {
      forall k | 0 <= k < |s| ensures !IsAsciiLetter(s[k]) {
        if k > 0 {
          assert s[k] == d[k - 1];
        }
      }
    }
    SubPairsNoOp(s, IsAsciiLetter, IsDigit);
    SubPairsNoOp(s, IsDigit, IsAsciiLetter);
    KeepsOther(w, d, false, isWord, words);
    assert d + [] == d;
    SpellsRun(d, [], true, isWord, words);
  }

  /** A digit run followed by a letter gets the space before the letter. */
  lemma {:induction false} DigitsThenLetter(d: string, b: char)
    requires d != [] && AllDigits(d) && IsAsciiLetter(b)
    ensures SubPairs(d + [b], IsDigit, IsAsciiLetter) == d + [' ', b]
    decreases |d|
  {
    var s := d + [b];
    if |d| == 1 {
      assert s == [d[0], b] && s[2..] == [];
    } else {
      assert s[1..] == d[1..] + [b];
      DigitsThenLetter(d[1..], b);
      assert [d[0]] + (d[1..] + [' ', b]) == d + [' ', b];
    }
  }

  /** Both substitutions on a letter, digits and a letter: a space on each side of the digits. */
  lemma SeparateBetweenLetters(a: char, d: string, b: char)
    requires IsAsciiLetter(a) && IsAsciiLetter(b) && d != [] && AllDigits(d)
    ensures Separate([a] + d + [b]) == [a] + ([' '] + (d + [' ', b]))
  {
    LetterBeforeDigits(a, d, b);
    DigitsBeforeLetter(a, d, b);
  }

  /** The first substitution puts a space after the leading letter only. */
  lemma LetterBeforeDigits(a: char, d: string, b: char)
    requires IsAsciiLetter(a) && d != [] && AllDigits(d)
    ensures SubPairs([a] + d + [b], IsAsciiLetter, IsDigit) == [a, ' '] + (d + [b])
  {
    var tail := d[1..] + [b];
    NoLetterBeforeEnd(d[1..], b);
    OnlyPair(a, d[0], tail, IsAsciiLetter, IsDigit);
    assert [a] + d + [b] == [a, d[0]] + tail;
    assert [a, ' ', d[0]] + tail == [a, ' '] + (d + [b]);
  }

  /** A pair followed by text without pairs: the only space is the pair's. */
  lemma OnlyPair(c1: char, c2: char, t: string, p: char -> bool, q: char -> bool)
    requires p(c1) && q(c2) && NoPair(t, p, q)
    ensures SubPairs([c1, c2] + t, p, q) == [c1, ' ', c2] + t
  {
    SubPairsNoOp(t, p, q);
    SubPairsPair(c1, c2, t, p, q);
  }

  /** Digits followed by one more character: no letter is followed by a digit. */
  lemma NoLetterBeforeEnd(d: string, b: char)
    requires AllDigits(d)
    ensures NoPair(d + [b], IsAsciiLetter, IsDigit)
  {
    var t := d + [b];
    forall k | 0 <= k < |t| - 1 ensures !IsAsciiLetter(t[k]) {
      assert t[k] == d[k];
    }
  }

  /** The second substitution puts a space before the trailing letter only. */
  lemma DigitsBeforeLetter(a: char, d: string, b: char)
    requires IsAsciiLetter(a) && IsAsciiLetter(b) && d != [] && AllDigits(d)
    ensures SubPairs([a, ' '] + (d + [b]), IsDigit, IsAsciiLetter) == [a] + ([' '] + (d + [' ', b]))
  {
    assert [a, ' '] + (d + [b]) == [a] + ([' '] + (d + [b]));
    DigitsThenLetter(d, b);
    SubPairsCons(a, [' '] + (d + [b]), IsDigit, IsAsciiLetter);
    SubPairsCons(' ', d + [b], IsDigit, IsAsciiLetter);
  }

  /** A pair gets its space, and the scan goes on after it. */
  lemma SubPairsPair(c1: char, c2: char, t: string, p: char -> bool, q: char -> bool)
    requires p(c1) && q(c2)
    ensures SubPairs([c1, c2] + t, p, q) == [c1, ' ', c2] + SubPairs(t, p, q)
  {
    assert ([c1, c2] + t)[2..] == t;
  }

  /** A character that cannot start a pair is copied. */
  lemma SubPairsCons(c: char, t: string, p: char -> bool, q: char -> bool)
    requires !p(c)
    ensures SubPairs([c] + t, p, q) == [c] + SubPairs(t, p, q)
  {
    assert ([c] + t)[1..] == t;
  }

  /** Digits between letters are split off and spelled out: "a12b" becomes "a " + words(12) + " b". */
  lemma RunBetweenLetters(a: char, d: string, b: char, isWord: char -> bool, words: nat -> string)
    requires WordClass(isWord) && IsAsciiLetter(a) && IsAsciiLetter(b) && d != [] && AllDigits(d)
    ensures TranslateNumberToText([a] + d + [b], isWord, words) == [a, ' '] + words(DigitsValue(d)) + [' ', b]
  {
    SeparateBetweenLetters(a, d, b);
    SpellSpacedRun(a, d, b, isWord, words);
    var n := words(DigitsValue(d));
    assert [a] + ([' '] + (n + [' ', b])) == [a, ' '] + n + [' ', b];
  }

  /** Spelling out a run set off by spaces between two other characters. */
  lemma SpellSpacedRun(a: char, d: string, b: char, isWord: char -> bool, words: nat -> string)
    requires WordClass(isWord) && !IsDigit(a) && !IsDigit(b) && d != [] && AllDigits(d)
    ensures SpellNumbers([a] + ([' '] + (d + [' ', b])), false, isWord, words)
         == [a] + ([' '] + (words(DigitsValue(d)) + [' ', b]))
  {
    SpellSpaceRun(d, b, isWord(a), isWord, words);
    KeepsOther(a, [' '] + (d + [' ', b]), false, isWord, words);
  }

  /** A space, then a run followed by a space and one more character. */
  lemma SpellSpaceRun(d: string, b: char, afterWord: bool, isWord: char -> bool, words: nat -> string)
    requires WordClass(isWord) && !IsDigit(b) && d != [] && AllDigits(d)
    ensures SpellNumbers([' '] + (d + [' ', b]), afterWord, isWord, words) == [' '] + (words(DigitsValue(d)) + [' ', b])
  {
    SpellRunThenSpace(d, b, isWord, words);
    KeepsOther(' ', d + [' ', b], afterWord, isWord, words);
  }

  /** A run followed by a space and one more character: the run is spelled out, the rest kept. */
  lemma SpellRunThenSpace(d: string, b: char, isWord: char -> bool, words: nat -> string)
    requires WordClass(isWord) && !IsDigit(b) && d != [] && AllDigits(d)
    ensures SpellNumbers(d + [' ', b], false, isWord, words) == words(DigitsValue(d)) + [' ', b]
  {
    SpellsRun(d, [' ', b], false, isWord, words);
    SpellSpaceThen(b, isWord, words);
  }

  /** A space and a character other than a digit are kept. */
  lemma SpellSpaceThen(b: char, isWord: char -> bool, words: nat -> string)
    requires !IsDigit(b)
    ensures SpellNumbers([' ', b], true, isWord, words) == [' ', b]
  {
    assert [' ', b] == [' '] + [b];
    KeepsOther(' ', [b], true, isWord, words);
    assert [b] == [b] + [];
    KeepsOther(b, [], isWord(' '), isWord, words);
  }
}
