/** The numeric input masks of the form (`formataCampo` and the three masks
    built on it): the digits typed so far are poured into a template whose
    `'0'` characters are digit slots and whose other characters are copied. */
module Masks {
  import opened Chars

  /** Brazilian individual taxpayer number (CPF), 11 digits. */
  const CpfMask: string := "000.000.000-00"
  /** Brazilian company taxpayer number (CNPJ), 14 digits. */
  const CnpjMask: string := "00.000.000/0000-00"
  /** Brazilian postal code (CEP), 8 digits. */
  const CepMask: string := "00.000-000"

  predicate AllDigits(s: string) {
    forall i :: 0 <= i < |s| ==> IsDigit(s[i])
  }

  function Min(a: int, b: int): int { if a <= b then a else b }

  /** `value.replace(/\D/g, '')`: the digits of `s`, in order. */
  function OnlyDigits(s: string): (d: string)
    ensures AllDigits(d) && |d| <= |s|
    ensures AllDigits(s) ==> d == s
  {
    if s == [] then [] else (if IsDigit(s[0]) then [s[0]] else []) + OnlyDigits(s[1..])
  }

  /** Stripping works piecewise: the digits of a concatenation are the digits
      of each part, in order. With `OnlyDigitsChar` this fixes the result for
      every value: each digit is kept, in order, and nothing else is. */
  lemma {:induction false} OnlyDigitsAppend(a: string, b: string)
    ensures OnlyDigits(a + b) == OnlyDigits(a) + OnlyDigits(b)
  {
    if a == [] {
      assert a + b == b;
    } else {
      assert (a + b)[1..] == a[1..] + b;
      OnlyDigitsAppend(a[1..], b);
    }
  }

  /** A single character survives exactly when it is a digit. */
  lemma OnlyDigitsChar(c: char)
    ensures OnlyDigits([c]) == if IsDigit(c) then [c] else []
  {
    assert [c][1..] == [];
  }

  /** `mascaraInteiro`: tests the already digit-stripped value against
      `^\d*$`, so it can never fail and every mask is always applied. */
  function MascaraInteiro(value: string): (ok: bool)
    ensures ok
  {
    AllDigits(OnlyDigits(value))
  }

  /** The number of digit slots of a mask. */
  function Slots(m: string): nat {
    if m == [] then 0 else (if m[0] == '0' then 1 else 0) + Slots(m[1..])
  }

  /** The mask walk: a slot takes the next digit, any other mask character is
      copied, and the walk ends as soon as the digits or the mask run out. */
  function Fill(d: string, m: string): (r: string)
    ensures |r| <= |m|
  {
    if m == [] || d == [] then []
    else if m[0] == '0' then [d[0]] + Fill(d[1..], m[1..])
    else [m[0]] + Fill(d, m[1..])
  }

  /** What `formataCampo(field, mask)` writes back into the field. */
  function Mask(value: string, m: string): string {
    Fill(OnlyDigits(value), m)
  }

  /** The characters of `r` that stand at the slot positions of `m`. */
  function Picked(r: string, m: string): string
    requires |r| <= |m|
  {
    if r == [] then [] else (if m[0] == '0' then [r[0]] else []) + Picked(r[1..], m[1..])
  }

  predicate SeparatorsNotDigits(m: string) {
    forall i :: 0 <= i < |m| && m[i] != '0' ==> !IsDigit(m[i])
  }

  predicate EndsInSlot(m: string) {
    m == [] || m[|m| - 1] == '0'
  }

  /** The three masks of the form end in a slot and use no digits as separators. */
  predicate WellFormedMask(m: string) {
    SeparatorsNotDigits(m) && EndsInSlot(m)
  }

  /** The walk agrees with the mask at every separator position it reaches
      (and it is never longer than the mask, by `Fill`'s own contract). */
  lemma {:induction false} FillKeepsSeparators(d: string, m: string)
    ensures forall i :: 0 <= i < |Fill(d, m)| && m[i] != '0' ==> Fill(d, m)[i] == m[i]
  {
    if m == [] || d == [] {
    } else if m[0] == '0' {
      FillKeepsSeparators(d[1..], m[1..]);
      assert Fill(d, m)[1..] == Fill(d[1..], m[1..]);
    } else {
      FillKeepsSeparators(d, m[1..]);
      assert Fill(d, m)[1..] == Fill(d, m[1..]);
    }
  }

  /** At the slot positions the output holds exactly the first
      min(#digits, #slots) digits, in order. */
  lemma {:induction false} FillPicksLeadingDigits(d: string, m: string)
    ensures Picked(Fill(d, m), m) == d[..Min(|d|, Slots(m))]
  {
    var r := Fill(d, m);
    if m == [] || d == [] {
      assert r == [];
    } else if m[0] == '0' {
      var r' := Fill(d[1..], m[1..]);
      FillPicksLeadingDigits(d[1..], m[1..]);
      assert r == [d[0]] + r' && r[1..] == r';
      assert d[..Min(|d|, Slots(m))] == [d[0]] + d[1..][..Min(|d| - 1, Slots(m[1..]))];
    } else {
      var r' := Fill(d, m[1..]);
      FillPicksLeadingDigits(d, m[1..]);
      assert r == [m[0]] + r' && r[1..] == r';
    }
  }

  /** The walk stops short of the mask only once every digit is consumed,
      and then right after the slot that took the last digit: no separator
      ever follows the last digit. */
  lemma {:induction false} FillStopsAfterLastDigit(d: string, m: string)
    ensures |Fill(d, m)| < |m| ==> Slots(m[..|Fill(d, m)|]) == |d|
    ensures 0 < |Fill(d, m)| < |m| ==> m[|Fill(d, m)| - 1] == '0'
  {
    var r := Fill(d, m);
    if m == [] || d == [] {
      assert m[..|r|] == [];
    } else if m[0] == '0' {
      var r' := Fill(d[1..], m[1..]);
      FillStopsAfterLastDigit(d[1..], m[1..]);
      assert r == [d[0]] + r';
      if |r| < |m| {
        assert m[..|r|][1..] == m[1..][..|r'|];
      }
    } else {
      var r' := Fill(d, m[1..]);
      FillStopsAfterLastDigit(d, m[1..]);
      assert r == [m[0]] + r';
      if |r| < |m| {
        assert m[..|r|][1..] == m[1..][..|r'|];
      }
    }
  }

  /** Surplus digits are dropped silently: with more digits than slots the
      whole mask is walked and the output is exactly as long as the mask. */
  lemma SurplusDigitsDropped(d: string, m: string)
    requires |d| > Slots(m)
    ensures |Fill(d, m)| == |m|
    ensures Picked(Fill(d, m), m) == d[..Slots(m)]
  {
    FillPicksLeadingDigits(d, m);
    FillStopsAfterLastDigit(d, m);
    if |Fill(d, m)| < |m| {
      SlotsOfPrefix(m, |Fill(d, m)|);
    }
  }

  lemma {:induction false} SlotsOfPrefix(m: string, n: nat)
    requires n <= |m|
    ensures Slots(m[..n]) <= Slots(m)
  {
    if n > 0 {
      assert m[..n][1..] == m[1..][..n - 1];
      SlotsOfPrefix(m[1..], n - 1);
    }
  }

  /** A slot of the output holds a digit whenever the input was digits. */
  lemma {:induction false} FillSlotsAreDigits(d: string, m: string)
    requires AllDigits(d)
    ensures forall i :: 0 <= i < |Fill(d, m)| && m[i] == '0' ==> IsDigit(Fill(d, m)[i])
  {
    if m == [] || d == [] {
    } else if m[0] == '0' {
      FillSlotsAreDigits(d[1..], m[1..]);
      assert Fill(d, m)[1..] == Fill(d[1..], m[1..]);
    } else {
      FillSlotsAreDigits(d, m[1..]);
      assert Fill(d, m)[1..] == Fill(d, m[1..]);
    }
  }

  /** When no separator is a digit, stripping the non-digits from the output
      gives back the digits it consumed. */
  lemma {:induction false} OnlyDigitsOfFill(d: string, m: string)
    requires AllDigits(d) && SeparatorsNotDigits(m)
    ensures OnlyDigits(Fill(d, m)) == d[..Min(|d|, Slots(m))]
  {
    if m == [] || d == [] {
    } else if m[0] == '0' {
      OnlyDigitsOfFill(d[1..], m[1..]);
      var r := Fill(d, m);
      assert r[0] == d[0] && r[1..] == Fill(d[1..], m[1..]);
      assert d[..Min(|d|, Slots(m))] == [d[0]] + d[1..][..Min(|d| - 1, Slots(m[1..]))];
    } else {
      assert SeparatorsNotDigits(m[1..]) by {
        forall i | 0 <= i < |m[1..]| && m[1..][i] != '0' ensures !IsDigit(m[1..][i]) {
          assert m[1..][i] == m[i + 1];
        }
      }
      OnlyDigitsOfFill(d, m[1..]);
      var r := Fill(d, m);
      assert r[0] == m[0] && r[1..] == Fill(d, m[1..]);
    }
  }

  lemma {:induction false} SlotsOfEndingMask(m: string)
    requires m != [] && EndsInSlot(m)
    ensures Slots(m) >= 1
  {
    if m[0] != '0' {
      SlotsOfEndingMask(m[1..]);
    }
  }

  /** For a mask that ends in a slot, the walk only ever looks at the first
      min(#digits, #slots) digits. */
  lemma {:induction false} FillUsesOnlyConsumedDigits(d: string, m: string)
    requires EndsInSlot(m)
    ensures Fill(d[..Min(|d|, Slots(m))], m) == Fill(d, m)
  {
    var k := Min(|d|, Slots(m));
    if m == [] || d == [] {
      assert d[..k] == [];
    } else if m[0] == '0' {
      FillUsesOnlyConsumedDigits(d[1..], m[1..]);
      assert d[..k][0] == d[0];
      assert d[..k][1..] == d[1..][..Min(|d| - 1, Slots(m[1..]))];
    } else {
      SlotsOfEndingMask(m);
      FillUsesOnlyConsumedDigits(d, m[1..]);
      assert d[..k] != [];
    }
  }

  /** Formatting an already formatted value changes nothing. */
  lemma MaskIdempotent(value: string, m: string)
    requires WellFormedMask(m)
    ensures Mask(Mask(value, m), m) == Mask(value, m)
  {
    var d := OnlyDigits(value);
    OnlyDigitsOfFill(d, m);
    FillUsesOnlyConsumedDigits(d, m);
  }

  /** Idempotence needs the mask to end in a slot: a trailing separator is
      emitted while surplus digits remain, and dropped on the second pass. */
  lemma TrailingSeparatorBreaksIdempotence()
    ensures Mask("123", "00-") == "12-"
    ensures Mask(Mask("123", "00-"), "00-") == "12"
  {
  }

  lemma {:induction false} SlotsAppend(a: string, b: string)
    ensures Slots(a + b) == Slots(a) + Slots(b)
  {
    if a == [] {
      assert a + b == b;
    } else {
      assert (a + b)[1..] == a[1..] + b;
      SlotsAppend(a[1..], b);
    }
  }

  lemma SlotCounts()
    ensures Slots("00") == 2 && Slots("000") == 3 && Slots(".000") == 3
    ensures Slots("-00") == 2 && Slots("-000") == 3 && Slots("/0000") == 4
  {
  }

  lemma CpfSlotCount()
    ensures Slots("000.000.000-00") == 11
  {
    assert "000.000.000-00" == "000" + ".000" + ".000" + "-00";
    SlotCounts();
    SlotsAppend("000", ".000");
    SlotsAppend("000" + ".000", ".000");
    SlotsAppend("000" + ".000" + ".000", "-00");
  }

  lemma CnpjRootSlotCount()
    ensures Slots("00.000.000") == 8
  {
    assert "00.000.000" == "00" + ".000" + ".000";
    SlotCounts();
    SlotsAppend("00", ".000");
    SlotsAppend("00" + ".000", ".000");
  }

  lemma CnpjBranchSlotCount()
    ensures Slots("/0000-00") == 6
  {
    assert "/0000-00" == "/0000" + "-00";
    SlotCounts();
    SlotsAppend("/0000", "-00");
  }

  lemma CepSlotCount()
    ensures Slots("00.000-000") == 8
  {
    assert "00.000-000" == "00" + ".000" + "-000";
    SlotCounts();
    SlotsAppend("00", ".000");
    SlotsAppend("00" + ".000", "-000");
  }

  /** The three masks of the form: 11, 14 and 8 slots, no digit separators,
      and each ends in a slot (so the idempotence lemma applies to them). */
  lemma CpfSeparators()
    ensures WellFormedMask(CpfMask)
  {
  }

  lemma CpfMaskWellFormed()
    ensures WellFormedMask(CpfMask) && Slots(CpfMask) == 11
  {
    CpfSeparators();
    CpfSlotCount();
  }

  lemma CnpjSeparators()
    ensures WellFormedMask(CnpjMask)
  {
  }

  lemma CnpjSplit()
    ensures CnpjMask == "00.000.000" + "/0000-00"
  {
  }

  lemma CnpjMaskWellFormed()
    ensures WellFormedMask(CnpjMask) && Slots(CnpjMask) == 14
  {
    CnpjSeparators();
    CnpjSplit();
    SlotsAppend("00.000.000", "/0000-00");
    CnpjRootSlotCount();
    CnpjBranchSlotCount();
  }

  lemma CepSeparators()
    ensures WellFormedMask(CepMask)
  {
  }

  lemma CepMaskWellFormed()
    ensures WellFormedMask(CepMask) && Slots(CepMask) == 8
  {
    CepSeparators();
    CepSlotCount();
  }

  /** The walk is compositional: a mask part that ends in a slot and has as
      many slots as there are digits for it consumes exactly those digits. */
  lemma {:induction false} FillAppend(d1: string, d2: string, m1: string, m2: string)
    requires |d1| == Slots(m1) && EndsInSlot(m1)
    ensures Fill(d1 + d2, m1 + m2) == Fill(d1, m1) + Fill(d2, m2)
  {
    if m1 == [] {
      assert d1 + d2 == d2 && m1 + m2 == m2;
    } else if m1[0] == '0' {
      assert (d1 + d2)[1..] == d1[1..] + d2;
      assert (m1 + m2)[1..] == m1[1..] + m2;
      FillAppend(d1[1..], d2, m1[1..], m2);
    } else {
      SlotsOfEndingMask(m1);
      assert (m1 + m2)[1..] == m1[1..] + m2;
      FillAppend(d1, d2, m1[1..], m2);
    }
  }

  lemma FillSlotStep(d: string, m: string)
    requires d != []
    ensures Fill(d, "0" + m) == [d[0]] + Fill(d[1..], m)
  {
    assert ("0" + m)[1..] == m;
  }

  lemma FillSeparatorStep(c: char, d: string, m: string)
    requires c != '0' && d != []
    ensures Fill(d, [c] + m) == [c] + Fill(d, m)
  {
    assert ([c] + m)[1..] == m;
  }

  /** A group of slots takes the digits as they are. */
  lemma FillGroup(d: string, sep: string)
    requires |d| == 3 && (sep == "" || sep == ".")
    ensures Fill(d, sep + "000") == sep + d
  {
    FillSlotStep(d[2..], "");
    FillSlotStep(d[1..], "0");
    FillSlotStep(d, "00");
    assert d[1..][1..] == d[2..] && d[2..][1..] == [];
    assert [d[0]] + ([d[1..][0]] + [d[2..][0]]) == d;
    if sep == "." {
      FillSeparatorStep('.', d, "000");
    } else {
      assert sep + "000" == "000";
    }
  }

  /** The last group of the CPF mask: a dash and two slots. */
  lemma FillCheckDigits(e: string)
    requires |e| == 2
    ensures Fill(e, "-00") == "-" + e
  {
    var m0 := "";
    var m1 := "0" + m0;
    var m2 := "0" + m1;
    assert ['-'] + m2 == "-00";
    FillSlotStep(e[1..], m0);
    FillSlotStep(e, m1);
    FillSeparatorStep('-', e, m2);
    assert e[1..][1..] == [];
    assert [e[0]] + [e[1..][0]] == e;
  }

  lemma {:induction false} CpfLastGroups(c: string, e: string, rest: string)
    requires |c| == 3 && |e| == 2
    ensures Fill(c + e + rest, ".000-00") == "." + c + "-" + e
  {
    assert ".000-00" == ".000" + "-00" && "-00" == "-00" + "";
    assert c + e + rest == c + (e + rest);
    FillAppend(c, e + rest, ".000", "-00");
    FillAppend(e, rest, "-00", "");
    FillGroup(c, ".");
    FillCheckDigits(e);
  }

  lemma {:induction false} CpfMiddleGroups(b: string, c: string, e: string, rest: string)
    requires |b| == |c| == 3 && |e| == 2
    ensures Fill(b + c + e + rest, ".000.000-00") == "." + b + "." + c + "-" + e
  {
    assert ".000.000-00" == ".000" + ".000-00";
    assert b + c + e + rest == b + (c + e + rest);
    FillAppend(b, c + e + rest, ".000", ".000-00");
    FillGroup(b, ".");
    CpfLastGroups(c, e, rest);
  }

  /** Eleven digits, or more, fill the CPF mask group by group. */
  lemma {:induction false} CpfGroups(a: string, b: string, c: string, e: string, rest: string)
    requires |a| == |b| == |c| == 3 && |e| == 2
    ensures Fill(a + b + c + e + rest, CpfMask) == a + "." + b + "." + c + "-" + e
  {
    assert CpfMask == "000" + ".000.000-00" && "" + "000" == "000";
    assert a + b + c + e + rest == a + (b + c + e + rest);
    FillAppend(a, b + c + e + rest, "000", ".000.000-00");
    FillGroup(a, "");
    CpfMiddleGroups(b, c, e, rest);
  }

  /** A partial CPF gets no separator before its first group is complete. */
  lemma CpfPartialExample(v: string)
    requires v == "123"
    ensures Mask(v, CpfMask) == "123"
  {
    assert CpfMask == "000" + ".000.000-00";
    FillAppend(v, "", "000", ".000.000-00");
    FillGroup(v, "");
    assert v + "" == v && "" + "000" == "000";
  }

  lemma CpfFirstSeparatorExample(v: string)
    requires v == "1234"
    ensures Mask(v, CpfMask) == "123.4"
  {
    assert CpfMask == "000" + ".000.000-00" && "" + "000" == "000";
    assert v == "123" + "4";
    FillAppend("123", "4", "000", ".000.000-00");
    FillGroup("123", "");
    assert Fill("4", ".000.000-00") == ".4";
  }

  lemma ElevenDigits(v: string)
    requires v == "12345678901"
    ensures OnlyDigits(v) == v && v == "123" + "456" + "789" + "01" + ""
  {
    assert AllDigits(v);
  }

  lemma TwelveDigits(v: string)
    requires v == "123456789012"
    ensures OnlyDigits(v) == v && v == "123" + "456" + "789" + "01" + "2"
  {
    assert AllDigits(v);
  }

  /** A complete CPF gets every separator; a twelfth digit is dropped. */
  lemma CpfCompleteExample(v: string)
    requires v == "12345678901"
    ensures Mask(v, CpfMask) == "123.456.789-01"
  {
    ElevenDigits(v);
    CpfGroups("123", "456", "789", "01", "");
  }

  lemma CpfSurplusExample(v: string)
    requires v == "123456789012"
    ensures Mask(v, CpfMask) == "123.456.789-01"
  {
    TwelveDigits(v);
    CpfGroups("123", "456", "789", "01", "2");
  }

  /** `formataCampo`: the loop over the mask index `i` and the digit index `di`. */
  method FormataCampo(value: string, mask: string) returns (result: string, ok: bool)
    ensures ok
    ensures result == Mask(value, mask)
  {
    var onlyDigits := OnlyDigits(value);
    result := "";
    var di := 0;
    var i := 0;
    while i < |mask| && di < |onlyDigits|
      invariant 0 <= i <= |mask| && 0 <= di <= |onlyDigits|
      invariant result + Fill(onlyDigits[di..], mask[i..]) == Fill(onlyDigits, mask)
    {
      assert mask[i..][1..] == mask[i + 1..];
      if mask[i] == '0' {
        assert onlyDigits[di..][1..] == onlyDigits[di + 1..];
        result := result + [onlyDigits[di]];
        di := di + 1;
      } else {
        result := result + [mask[i]];
      }
      i := i + 1;
    }
    ok := true;
  }

  /** `MascaraCPF`, `MascaraCNPJ`, `MascaraCep`: the integer check (which
      always passes), then the walk with the field's own mask. */
  method MascaraCpf(value: string) returns (ok: bool, result: string)
    ensures ok && result == Mask(value, CpfMask)
  {
    if !MascaraInteiro(value) {
      return false, value;
    }
    result, ok := FormataCampo(value, CpfMask);
  }

  method MascaraCnpj(value: string) returns (ok: bool, result: string)
    ensures ok && result == Mask(value, CnpjMask)
  {
    if !MascaraInteiro(value) {
      return false, value;
    }
    result, ok := FormataCampo(value, CnpjMask);
  }

  method MascaraCep(value: string) returns (ok: bool, result: string)
    ensures ok && result == Mask(value, CepMask)
  {
    if !MascaraInteiro(value) {
      return false, value;
    }
    result, ok := FormataCampo(value, CepMask);
  }
}
