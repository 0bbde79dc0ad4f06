/** Names as DNS labels (pkg/serverless/vaddr.go), on ASCII. */
module DnsLabel {

  const MAX_LABEL: nat := 63

  predicate IsSpace(c: char) { c == ' ' || '\t' <= c <= '\r' }
  predicate IsUpper(c: char) { 'A' <= c <= 'Z' }
  predicate IsAlnum(c: char) { ('a' <= c <= 'z') || ('0' <= c <= '9') }
  predicate IsLegal(c: char) { IsAlnum(c) || c == '-' }

  function LowerChar(c: char): char {
    if IsUpper(c) then c - 'A' + 'a' else c
  }

  /** The ASCII characters that matter, by code: capitals get 32 more, white space
      is the blank and codes 9 to 13. */
  lemma CharactersExactly(c: char)
    ensures LowerChar(c) as int == c as int + (if 65 <= c as int <= 90 then 32 else 0)
    ensures IsSpace(c) <==> c as int == 32 || 9 <= c as int <= 13
    ensures IsAlnum(c) <==> 97 <= c as int <= 122 || 48 <= c as int <= 57
  {
  }

  function Lower(s: string): (r: string)
    ensures |r| == |s| && forall i :: 0 <= i < |s| ==> r[i] == LowerChar(s[i])
  {
    seq(|s|, i requires 0 <= i < |s| => LowerChar(s[i]))
  }

  function TrimRight(s: string, drop: char -> bool): string {
    if s != "" && drop(s[|s| - 1]) then TrimRight(s[..|s| - 1], drop) else s
  }

  function TrimLeft(s: string, drop: char -> bool): string {
    if s != "" && drop(s[0]) then TrimLeft(s[1..], drop) else s
  }

  function Trim(s: string, drop: char -> bool): string {
    TrimRight(TrimLeft(s, drop), drop)
  }

  function TrimSpace(s: string): string { Trim(s, IsSpace) }

  /** TrimRight keeps a prefix and drops as much as it can. */
  lemma {:induction false} TrimRightMeaning(s: string, drop: char -> bool)
    ensures var r := TrimRight(s, drop);
      r <= s && (forall i :: |r| <= i < |s| ==> drop(s[i])) && (r != "" ==> !drop(r[|r| - 1]))
  {
    if s != "" && drop(s[|s| - 1]) { TrimRightMeaning(s[..|s| - 1], drop); }
  }

  /** TrimLeft keeps a suffix and drops as much as it can. */
  lemma {:induction false} TrimLeftMeaning(s: string, drop: char -> bool)
    ensures var r := TrimLeft(s, drop);
      && |r| <= |s| && r == s[|s| - |r|..]
      && (forall i :: 0 <= i < |s| - |r| ==> drop(s[i])) && (r != "" ==> !drop(r[0]))
  {
    if s != "" && drop(s[0]) {
      TrimLeftMeaning(s[1..], drop);
      assert forall i :: 0 < i < |s| ==> s[1..][i - 1] == s[i];
    }
  }

  /** strings.NewReplacer(" ", "-", "_", "-"). */
  function Dashed(s: string): string {
    seq(|s|, i requires 0 <= i < |s| => if s[i] == ' ' || s[i] == '_' then '-' else s[i])
  }

  /** Drops every character outside a-z, 0-9 and '-'. */
  function Strip(s: string): (r: string)
    ensures forall i :: 0 <= i < |r| ==> IsLegal(r[i])
  {
    if s == "" then ""
    else Strip(s[..|s| - 1]) + if IsLegal(s[|s| - 1]) then [s[|s| - 1]] else ""
  }

  predicate NoDoubleDash(s: string) {
    forall i :: 0 < i < |s| ==> !(s[i - 1] == '-' && s[i] == '-')
  }

  /** Runs of '-' become one. */
  function Squeeze(s: string): (r: string)
    ensures NoDoubleDash(r)
  {
    if s == "" then ""
    else
      var prev, last := Squeeze(s[..|s| - 1]), s[|s| - 1];
      if last == '-' && prev != "" && prev[|prev| - 1] == '-' then prev else prev + [last]
  }

  predicate IsDash(c: char) { c == '-' }

  /** The rewriting chain before the length limit. */
  function Reduced(name: string): string {
    Trim(Squeeze(Strip(Dashed(Lower(TrimSpace(name))))), IsDash)
  }

  /** DNSLabel. */
  function Label(name: string): string {
    var s := Reduced(name);
    if |s| > MAX_LABEL then TrimRight(s[..MAX_LABEL], IsDash) else s
  }

  /** Legal characters with no two dashes in a row. */
  predicate Clean(s: string) {
    && (forall i :: 0 <= i < |s| ==> IsLegal(s[i]))
    && NoDoubleDash(s)
  }

  predicate WellFormedButForLength(s: string) {
    Clean(s) && (s != "" ==> s[0] != '-' && s[|s| - 1] != '-')
  }

  /** A DNS label of at most 63 characters, or the empty string. */
  predicate WellFormed(s: string) { |s| <= MAX_LABEL && WellFormedButForLength(s) }

  lemma CleanSuffix(s: string, k: nat)
    requires Clean(s) && k <= |s|
    ensures Clean(s[k..])
  {
    var t := s[k..];
    forall i | 0 < i < |t| ensures !(t[i - 1] == '-' && t[i] == '-') {
      assert t[i - 1] == s[k + i - 1] && t[i] == s[k + i];
    }
  }

  lemma CleanPrefix(s: string, r: string)
    requires Clean(s) && r <= s
    ensures Clean(r)
  {
    assert forall i :: 0 <= i < |r| ==> r[i] == s[i];
  }

  lemma TrimLeftKeeps(s: string)
    requires Clean(s)
    ensures Clean(TrimLeft(s, IsDash)) && (TrimLeft(s, IsDash) != "" ==> TrimLeft(s, IsDash)[0] != '-')
  {
    TrimLeftMeaning(s, IsDash);
    CleanSuffix(s, |s| - |TrimLeft(s, IsDash)|);
  }

  lemma TrimRightKeeps(l: string)
    requires Clean(l) && (l != "" ==> l[0] != '-')
    ensures WellFormedButForLength(TrimRight(l, IsDash))
  {
    TrimRightMeaning(l, IsDash);
    CleanPrefix(l, TrimRight(l, IsDash));
  }

  lemma TrimKeeps(s: string)
    requires Clean(s)
    ensures WellFormedButForLength(Trim(s, IsDash))
  {
    TrimLeftKeeps(s);
    TrimRightKeeps(TrimLeft(s, IsDash));
  }

  lemma {:induction false} SqueezeLegal(s: string)
    requires forall i :: 0 <= i < |s| ==> IsLegal(s[i])
    ensures forall i :: 0 <= i < |Squeeze(s)| ==> IsLegal(Squeeze(s)[i])
  {
    if s != "" { SqueezeLegal(s[..|s| - 1]); }
  }

  lemma ReducedClean(name: string)
    ensures WellFormedButForLength(Reduced(name))
  {
    var stripped := Strip(Dashed(Lower(TrimSpace(name))));
    var q := Squeeze(stripped);
    SqueezeLegal(stripped);
    TrimKeeps(q);
  }

  /** Whatever the name, the result is a label or empty. */
  lemma LabelWellFormed(name: string)
    ensures WellFormed(Label(name))
  {
    ReducedClean(name);
    var s := Reduced(name);
    if |s| > MAX_LABEL {
      var r := TrimRight(s[..MAX_LABEL], IsDash);
      TrimRightMeaning(s[..MAX_LABEL], IsDash);
      CleanPrefix(s, r);
      assert r != "" ==> r[0] == s[0];
    }
  }

  lemma {:induction false} StripFixed(s: string)
    requires forall i :: 0 <= i < |s| ==> IsLegal(s[i])
    ensures Strip(s) == s
  {
    if s != "" {
      StripFixed(s[..|s| - 1]);
      assert s == s[..|s| - 1] + [s[|s| - 1]];
    }
  }

  lemma {:induction false} SqueezeFixed(s: string)
    requires NoDoubleDash(s)
    ensures Squeeze(s) == s
  {
    if s != "" {
      SqueezeFixed(s[..|s| - 1]);
      assert s == s[..|s| - 1] + [s[|s| - 1]];
    }
  }

  lemma LegalIsPlain(c: char)
    requires IsLegal(c)
    ensures !IsSpace(c) && LowerChar(c) == c && c != ' ' && c != '_'
  {
  }

  /** Labels are exactly the fixed points: normalising twice changes nothing. */
  lemma LabelFixedExactly(s: string)
    ensures Label(s) == s <==> WellFormed(s)
    ensures Label(Label(s)) == Label(s)
  {
    LabelWellFormed(s);
    if WellFormed(s) { LabelFixes(s); }
    LabelFixes(Label(s));
  }

  lemma LabelFixes(s: string)
    requires WellFormed(s)
    ensures Label(s) == s
  {
    forall i | 0 <= i < |s| ensures !IsSpace(s[i]) && LowerChar(s[i]) == s[i] && s[i] != ' ' && s[i] != '_' {
      LegalIsPlain(s[i]);
    }
    assert TrimSpace(s) == s;
    assert Lower(s) == s;
    assert Dashed(s) == s;
    StripFixed(s);
    SqueezeFixed(s);
  }

  // ---- what survives: the letters and digits, in order ----

  function Letters(s: string): string {
    if s == "" then ""
    else Letters(s[..|s| - 1]) + if IsAlnum(s[|s| - 1]) then [s[|s| - 1]] else ""
  }

  lemma {:induction false} LettersConcat(a: string, b: string)
    ensures Letters(a + b) == Letters(a) + Letters(b)
  {
    if b == "" {
      assert a + b == a;
    } else {
      LettersConcat(a, b[..|b| - 1]);
      assert (a + b)[..|a + b| - 1] == a + b[..|b| - 1];
    }
  }

  lemma {:induction false} LettersTrimRight(s: string, drop: char -> bool)
    requires forall c :: drop(c) ==> !IsAlnum(c)
    ensures Letters(TrimRight(s, drop)) == Letters(s)
  {
    if s != "" && drop(s[|s| - 1]) { LettersTrimRight(s[..|s| - 1], drop); }
  }

  lemma {:induction false} LettersTrimLeft(s: string, drop: char -> bool)
    requires forall c :: drop(c) ==> !IsAlnum(c)
    ensures Letters(TrimLeft(s, drop)) == Letters(s)
  {
    if s != "" && drop(s[0]) {
      LettersConcat([s[0]], s[1..]);
      assert s == [s[0]] + s[1..];
      LettersTrimLeft(s[1..], drop);
    }
  }

  lemma {:induction false} LettersStrip(s: string)
    ensures Letters(Strip(s)) == Letters(s)
  {
    if s != "" {
      LettersStrip(s[..|s| - 1]);
      LettersConcat(Strip(s[..|s| - 1]), if IsLegal(s[|s| - 1]) then [s[|s| - 1]] else "");
    }
  }

  lemma {:induction false} LettersSqueeze(s: string)
    ensures Letters(Squeeze(s)) == Letters(s)
  {
    if s != "" {
      LettersSqueeze(s[..|s| - 1]);
      LettersConcat(Squeeze(s[..|s| - 1]), [s[|s| - 1]]);
    }
  }

  lemma {:induction false} LettersPointwise(s: string, t: string)
    requires |s| == |t|
    requires forall i :: 0 <= i < |s| ==> s[i] == t[i] || (!IsAlnum(s[i]) && !IsAlnum(t[i]))
    ensures Letters(s) == Letters(t)
  {
    if s != "" { LettersPointwise(s[..|s| - 1], t[..|t| - 1]); }
  }

  lemma {:induction false} LettersLowerTrim(s: string, drop: char -> bool)
    requires forall c :: drop(c) ==> !IsAlnum(c) && !IsUpper(c)
    ensures Letters(Lower(Trim(s, drop))) == Letters(Lower(s))
  {
    var l := TrimLeft(s, drop);
    LettersTrimLeftLower(s, drop);
    LettersTrimRightLower(l, drop);
  }

  lemma {:induction false} LettersTrimRightLower(s: string, drop: char -> bool)
    requires forall c :: drop(c) ==> !IsAlnum(c) && !IsUpper(c)
    ensures Letters(Lower(TrimRight(s, drop))) == Letters(Lower(s))
  {
    if s != "" && drop(s[|s| - 1]) {
      LettersTrimRightLower(s[..|s| - 1], drop);
      assert Lower(s)[..|s| - 1] == Lower(s[..|s| - 1]);
    }
  }

  lemma {:induction false} LettersTrimLeftLower(s: string, drop: char -> bool)
    requires forall c :: drop(c) ==> !IsAlnum(c) && !IsUpper(c)
    ensures Letters(Lower(TrimLeft(s, drop))) == Letters(Lower(s))
  {
    if s != "" && drop(s[0]) {
      LettersTrimLeftLower(s[1..], drop);
      LettersConcat([s[0]], Lower(s[1..]));
      assert Lower(s) == [s[0]] + Lower(s[1..]);
    }
  }

  lemma LettersReduced(name: string)
    ensures Letters(Reduced(name)) == Letters(Lower(name))
  {
    var d := Dashed(Lower(TrimSpace(name)));
    var q := Squeeze(Strip(d));
    calc {
      Letters(Lower(name));
      { LettersLowerTrim(name, IsSpace); }
      Letters(Lower(TrimSpace(name)));
      { LettersPointwise(Lower(TrimSpace(name)), d); }
      Letters(d);
      { LettersStrip(d); LettersSqueeze(Strip(d)); }
      Letters(q);
      { LettersTrimLeft(q, IsDash); LettersTrimRight(TrimLeft(q, IsDash), IsDash); }
      Letters(Reduced(name));
    }
  }

  /** A label spells the letters and digits of the name in order: all of them,
      unless the 63-character limit cut the end off. */
  lemma LettersKept(name: string)
    ensures Letters(Label(name)) <= Letters(Lower(name))
    ensures |Label(name)| < MAX_LABEL - 1 ==> Letters(Label(name)) == Letters(Lower(name))
  {
    LettersReduced(name);
    var s := Reduced(name);
    if |s| > MAX_LABEL {
      ReducedClean(name);
      CutKeepsPrefix(s);
    }
  }

  lemma CutKeepsPrefix(s: string)
    requires |s| > MAX_LABEL && NoDoubleDash(s)
    ensures Letters(TrimRight(s[..MAX_LABEL], IsDash)) <= Letters(s)
    ensures |TrimRight(s[..MAX_LABEL], IsDash)| >= MAX_LABEL - 1
  {
    LettersTrimRight(s[..MAX_LABEL], IsDash);
    LettersConcat(s[..MAX_LABEL], s[MAX_LABEL..]);
    assert s == s[..MAX_LABEL] + s[MAX_LABEL..];
    var t := s[..MAX_LABEL];
    TrimRightMeaning(t, IsDash);
    assert TrimRight(t, IsDash) == if t[|t| - 1] == '-' then TrimRight(t[..|t| - 1], IsDash) else t;
    assert t[|t| - 1] == s[MAX_LABEL - 1] && t[..|t| - 1] != "" && t[..|t| - 1][|t| - 2] == s[MAX_LABEL - 2];
  }
}
