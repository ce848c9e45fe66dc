/** Word capitalisation of the name fields (`isRomanNumeral` and
    `capitalizeWords`): split on single spaces, upper-case every token made
    only of Roman-numeral letters, give every other non-empty token an
    upper-case first character and a lower-case rest, and join again. */
module Capitalize {
  import opened Chars

  const RomanLetters: string := "ivxlcdm"

  /** A letter of the class `[ivxlcdm]` matched case-insensitively: one of
      the seven letters in either case. */
  predicate IsRomanLetter(c: char)
    ensures IsRomanLetter(c) <==> c in "ivxlcdmIVXLCDM"
  {
    ToLower(c) in RomanLetters
  }

  /** `isRomanNumeral`: the test `/^[ivxlcdm]+$/i`, a non-empty word made
      only of the seven letters, in any mix of cases. */
  predicate IsRomanNumeral(w: string)
    ensures IsRomanNumeral(w) <==> |w| > 0 && forall i :: 0 <= i < |w| ==> w[i] in "ivxlcdmIVXLCDM"
  {
    |w| > 0 && forall i :: 0 <= i < |w| ==> IsRomanLetter(w[i])
  }

  /** `r` differs from `s` at most in the case of its letters. */
  predicate CaseVariant(r: string, s: string) {
    |r| == |s| && forall k :: 0 <= k < |s| ==> r[k] == ToUpper(s[k]) || r[k] == ToLower(s[k])
  }

  /** The mapping applied to one token by `capitalizeWords`. */
  function CapitalizeWord(w: string): (r: string)
    ensures CaseVariant(r, w)
  {
    if w == [] then w
    else if IsRomanNumeral(w) then Upper(w)
    else [ToUpper(w[0])] + Lower(w[1..])
  }

  /** `s.split(' ')`: the tokens between single spaces, empty ones included
      (so there is always one more token than there are spaces). */
  function Split(s: string): (ws: seq<string>)
    ensures |ws| >= 1
    ensures forall i :: 0 <= i < |ws| ==> ' ' !in ws[i]
  {
    if s == [] then [[]]
    else
      var rest := Split(s[1..]);
      if s[0] == ' ' then [[]] + rest else [[s[0]] + rest[0]] + rest[1..]
  }

  /** `ws.join(' ')`. */
  function Join(ws: seq<string>): string
    requires |ws| >= 1
  {
    if |ws| == 1 then ws[0] else ws[0] + " " + Join(ws[1..])
  }

  function MapWords(ws: seq<string>): (vs: seq<string>)
    ensures |vs| == |ws| && forall i :: 0 <= i < |ws| ==> vs[i] == CapitalizeWord(ws[i])
  {
    seq(|ws|, i requires 0 <= i < |ws| => CapitalizeWord(ws[i]))
  }

  /** What `capitalizeWords(field)` writes back into the field: the tokens
      between single spaces, each mapped by `CapitalizeWord`, joined with
      single spaces again. Only the case of letters changes. */
  function CapitalizeWords(s: string): (r: string)
    ensures CaseVariant(r, s)
  {
    var ws := Split(s);
    JoinCaseVariant(MapWords(ws), ws);
    JoinSplit(s);
    Join(MapWords(ws))
  }

  /** Joining the tokens again gives back the string that was split. */
  lemma {:induction false} JoinSplit(s: string)
    ensures Join(Split(s)) == s
  {
    if s != [] {
      var rest := Split(s[1..]);
      JoinSplit(s[1..]);
      if s[0] == ' ' {
        assert Split(s)[1..] == rest;
      } else {
        var ws := Split(s);
        assert ws[1..] == rest[1..];
        if |rest| > 1 {
          assert Join(rest) == rest[0] + " " + Join(rest[1..]);
        }
      }
    }
  }

  lemma {:induction false} SplitWord(w: string)
    requires ' ' !in w
    ensures Split(w) == [w]
  {
    if w != [] {
      SplitWord(w[1..]);
      assert [w[0]] + w[1..] == w;
    }
  }

  lemma {:induction false} SplitAfterWord(w: string, t: string)
    requires ' ' !in w
    ensures Split(w + " " + t) == [w] + Split(t)
  {
    if w == [] {
      assert (w + " " + t)[1..] == t;
    } else {
      assert (w + " " + t)[1..] == w[1..] + " " + t;
      SplitAfterWord(w[1..], t);
      assert [w[0]] + w[1..] == w;
    }
  }

  /** Splitting a join of space-free tokens gives back the tokens. */
  lemma {:induction false} SplitJoin(ws: seq<string>)
    requires |ws| >= 1 && forall i :: 0 <= i < |ws| ==> ' ' !in ws[i]
    ensures Split(Join(ws)) == ws
  {
    if |ws| == 1 {
      SplitWord(ws[0]);
    } else {
      SplitJoin(ws[1..]);
      SplitAfterWord(ws[0], Join(ws[1..]));
    }
  }

  lemma CaseVariantAppend(r1: string, s1: string, r2: string, s2: string)
    requires CaseVariant(r1, s1) && CaseVariant(r2, s2)
    ensures CaseVariant(r1 + r2, s1 + s2)
  {
    forall k | 0 <= k < |s1 + s2|
      ensures (r1 + r2)[k] == ToUpper((s1 + s2)[k]) || (r1 + r2)[k] == ToLower((s1 + s2)[k])
    {
      if k >= |s1| {
        assert (r1 + r2)[k] == r2[k - |s1|] && (s1 + s2)[k] == s2[k - |s1|];
      }
    }
  }

  lemma {:induction false} JoinCaseVariant(vs: seq<string>, ws: seq<string>)
    requires |vs| == |ws| >= 1
    requires forall i :: 0 <= i < |ws| ==> CaseVariant(vs[i], ws[i])
    ensures CaseVariant(Join(vs), Join(ws))
  {
    if |ws| > 1 {
      JoinCaseVariant(vs[1..], ws[1..]);
      assert CaseVariant(" ", " ");
      CaseVariantAppend(vs[0], ws[0], " ", " ");
      CaseVariantAppend(vs[0] + " ", ws[0] + " ", Join(vs[1..]), Join(ws[1..]));
    }
  }

  /** Capitalisation only changes the case of letters: the length and the
      position of every space stay as they were. */
  lemma CapitalizeWordsKeepsLayout(s: string)
    ensures CaseVariant(CapitalizeWords(s), s)
    ensures forall k :: 0 <= k < |s| ==> (CapitalizeWords(s)[k] == ' ' <==> s[k] == ' ')
  {
    var ws := Split(s);
    JoinCaseVariant(MapWords(ws), ws);
    JoinSplit(s);
    forall k | 0 <= k < |s| ensures CapitalizeWords(s)[k] == ' ' <==> s[k] == ' ' {
      CaseLaws(s[k]);
    }
  }

  /** Per token: the result has as many `' '`-separated tokens as the input,
      and each is the input's token mapped by the rule: an empty token stays
      empty, a Roman-numeral token is fully upper-cased, and any other token
      gets an upper-case first character and a lower-case rest. */
  lemma CapitalizeWordsPerToken(s: string)
    ensures |Split(CapitalizeWords(s))| == |Split(s)|
    ensures forall i :: 0 <= i < |Split(s)| ==>
      var w, r := Split(s)[i], Split(CapitalizeWords(s))[i];
      |r| == |w| &&
      (IsRomanNumeral(w) ==> forall k :: 0 <= k < |w| ==> r[k] == ToUpper(w[k])) &&
      (w != [] && !IsRomanNumeral(w) ==>
        r[0] == ToUpper(w[0]) && forall k :: 1 <= k < |w| ==> r[k] == ToLower(w[k]))
  {
    MappedTokensSpaceFree(s);
    SplitJoin(MapWords(Split(s)));
  }

  lemma MappedTokensSpaceFree(s: string)
    ensures forall i :: 0 <= i < |Split(s)| ==> ' ' !in MapWords(Split(s))[i]
  {
    var vs := MapWords(Split(s));
    forall i | 0 <= i < |vs| ensures ' ' !in vs[i] {
      var w := Split(s)[i];
      forall k | 0 <= k < |w| ensures vs[i][k] != ' ' {
        CaseLaws(w[k]);
      }
    }
  }

  /** Case changes never move a token between the Roman and the other class. */
  lemma CaseVariantKeepsClass(r: string, w: string)
    requires CaseVariant(r, w)
    ensures IsRomanNumeral(r) <==> IsRomanNumeral(w)
  {
    forall k | 0 <= k < |w| ensures IsRomanLetter(r[k]) <==> IsRomanLetter(w[k]) {
      CaseLaws(w[k]);
    }
  }

  lemma CapitalizeWordIdempotent(w: string)
    ensures CapitalizeWord(CapitalizeWord(w)) == CapitalizeWord(w)
  {
    var r := CapitalizeWord(w);
    CaseVariantKeepsClass(r, w);
    if w != [] {
      forall k | 0 <= k < |w| ensures CapitalizeWord(r)[k] == r[k] {
        CaseLaws(w[k]);
      }
    }
  }

  /** A second application of `capitalizeWords` changes nothing. */
  lemma CapitalizeWordsIdempotent(s: string)
    ensures CapitalizeWords(CapitalizeWords(s)) == CapitalizeWords(s)
  {
    var vs := MapWords(Split(s));
    MappedTokensSpaceFree(s);
    SplitJoin(vs);
    forall i | 0 <= i < |vs| ensures MapWords(vs)[i] == vs[i] {
      CapitalizeWordIdempotent(Split(s)[i]);
    }
    assert MapWords(vs) == vs;
  }

  /** A word that has a letter outside the numeral letters and whose other
      letters are already lower case only gets its initial upper-cased. */
  lemma NameWord(w: string, cap: string)
    requires |w| > 0 && !IsRomanNumeral(w)
    requires forall k :: 1 <= k < |w| ==> !IsAsciiUpper(w[k])
    requires cap == [ToUpper(w[0])] + w[1..]
    ensures CapitalizeWord(w) == cap
  {
    assert Lower(w[1..]) == w[1..];
  }

  lemma NumeralWord(w: string, cap: string)
    requires IsRomanNumeral(w)
    requires |cap| == |w| && forall k :: 0 <= k < |w| ==> cap[k] == ToUpper(w[k])
    ensures CapitalizeWord(w) == cap
  {
  }

  lemma NameSplit(s: string)
    requires s == "joão da silva"
    ensures Split(s) == ["joão", "da", "silva"]
  {
    assert s == "joão" + " " + ("da" + " " + "silva");
    SplitAfterWord("joão", "da" + " " + "silva");
    SplitAfterWord("da", "silva");
    SplitWord("silva");
  }

  lemma CapitalizeWordsOf(s: string, ws: seq<string>, vs: seq<string>)
    requires Split(s) == ws && |vs| == |ws|
    requires forall i :: 0 <= i < |ws| ==> CapitalizeWord(ws[i]) == vs[i]
    ensures CapitalizeWords(s) == Join(vs)
  {
    assert MapWords(ws) == vs;
  }

  lemma NameWords()
    ensures CapitalizeWord("joão") == "João"
    ensures CapitalizeWord("da") == "Da"
    ensures CapitalizeWord("silva") == "Silva"
  {
    assert !IsRomanLetter("joão"[0]) && !IsRomanLetter("da"[1]) && !IsRomanLetter("silva"[0]);
    NameWord("joão", "João");
    NameWord("da", "Da");
    NameWord("silva", "Silva");
  }

  lemma NameJoin(r: string)
    requires r == "João Da Silva"
    ensures Join(["João", "Da", "Silva"]) == r
  {
    assert ["João", "Da", "Silva"][1..] == ["Da", "Silva"];
  }

  /** A full name: every word gets an upper-case initial. */
  lemma NameExample(s: string)
    requires s == "joão da silva"
    ensures CapitalizeWords(s) == "João Da Silva"
  {
    NameSplit(s);
    NameWords();
    CapitalizeWordsOf(s, ["joão", "da", "silva"], ["João", "Da", "Silva"]);
    NameJoin("João Da Silva");
  }

  lemma NumeralWords()
    ensures CapitalizeWord("casa") == "Casa"
    ensures CapitalizeWord("ii") == "II"
  {
    assert !IsRomanLetter("casa"[1]);
    NameWord("casa", "Casa");
    NumeralWord("ii", "II");
  }

  lemma NumeralSplit(s: string)
    requires s == "casa ii"
    ensures Split(s) == ["casa", "ii"]
  {
    assert s == "casa" + " " + "ii";
    SplitAfterWord("casa", "ii");
    SplitWord("ii");
  }

  /** A Roman-numeral word keeps (or gets) upper case. */
  lemma NumeralExample(s: string)
    requires s == "casa ii"
    ensures CapitalizeWords(s) == "Casa II"
  {
    NumeralSplit(s);
    NumeralWords();
    CapitalizeWordsOf(s, ["casa", "ii"], ["Casa", "II"]);
  }

  /** The test accepts any run of the seven letters, so an ordinary word made
      of them, such as "mix", is upper-cased as if it were a numeral. */
  lemma NumeralLetterWordExample(s: string)
    requires s == "mix"
    ensures IsRomanNumeral(s) && CapitalizeWords(s) == "MIX"
  {
    SplitWord(s);
    NumeralWord(s, "MIX");
    CapitalizeWordsOf(s, [s], ["MIX"]);
  }
}
