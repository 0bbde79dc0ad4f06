/** How a label reads (pkg/serverless/vaddr.go): the words of the name, hyphenated. */
module DnsWords {
  import opened DnsLabel

  predicate IsSeparator(c: char) { c == ' ' || c == '_' || c == '-' }

  /** What was read of a text: its words, whether the last one still grows, and
      whether a separator came before the first. */
  datatype Reading = Reading(words: seq<string>, open: bool, lead: bool)

  /** Letters and digits make words, separators end them, and all else is passed over. */
  function Read(s: string): Reading {
    if s == "" then Reading([], false, false)
    else
      Next(Read(s[..|s| - 1]), s[|s| - 1])
  }

  function Next(r: Reading, c: char): Reading {
    if IsAlnum(c) then r.(words := Grown(r, c), open := true)
    else if IsSeparator(c) then r.(open := false, lead := r.lead || r.words == [])
    else r
  }

  function Grown(r: Reading, c: char): seq<string> {
    if r.open && r.words != [] then r.words[..|r.words| - 1] + [r.words[|r.words| - 1] + [c]] else r.words + [[c]]
  }

  function Words(s: string): seq<string> { Read(s).words }

  function Join(words: seq<string>): string {
    if words == [] then ""
    else if |words| == 1 then words[0]
    else Join(words[..|words| - 1]) + "-" + words[|words| - 1]
  }

  ghost predicate ReadingOk(r: Reading) {
    && (forall w :: w in r.words ==> w != "" && forall i :: 0 <= i < |w| ==> IsAlnum(w[i]))
    && (r.open ==> r.words != [])
  }

  lemma {:induction false} ReadOk(s: string)
    ensures ReadingOk(Read(s))
  {
    if s != "" { ReadOk(s[..|s| - 1]); }
  }

  /** The text around some joined words. */
  function Framed(lead: bool, joined: string, dash: bool): string {
    (if lead then "-" else "") + joined + (if dash then "-" else "")
  }

  /** The text of a reading with the dashes that still surround it. */
  function Shown(r: Reading): string {
    Framed(r.lead, Join(r.words), r.words != [] && !r.open)
  }

  /** Joined words begin and end with a letter or digit. */
  lemma {:induction false} JoinEnds(words: seq<string>)
    requires words != [] && forall w :: w in words ==> w != "" && forall i :: 0 <= i < |w| ==> IsAlnum(w[i])
    ensures var j := Join(words); j != "" && IsAlnum(j[0]) && IsAlnum(j[|j| - 1])
  {
    var init, last := words[..|words| - 1], words[|words| - 1];
    assert last in words;
    if |words| > 1 { JoinEnds(init); }
  }

  lemma SqueezeSnoc(s: string, c: char)
    ensures Squeeze(s + [c]) ==
      if c == '-' && Squeeze(s) != "" && Squeeze(s)[|Squeeze(s)| - 1] == '-' then Squeeze(s) else Squeeze(s) + [c]
  {
    assert (s + [c])[..|s|] == s;
  }

  lemma StripDashedSnoc(s: string)
    requires s != ""
    ensures var init, c := Strip(Dashed(s[..|s| - 1])), s[|s| - 1];
      Strip(Dashed(s)) ==
        if IsAlnum(c) then init + [c] else if IsSeparator(c) then init + ['-'] else init
  {
    assert Dashed(s)[..|s| - 1] == Dashed(s[..|s| - 1]);
  }

  /** A grown word ends the joined text with its new character. */
  lemma JoinGrown(r: Reading, c: char)
    requires ReadingOk(r)
    ensures Join(Grown(r, c)) == if r.words == [] then [c] else if r.open then Join(r.words) + [c] else Join(r.words) + "-" + [c]
  {
    var g := Grown(r, c);
    if r.open {
      assert g[..|g| - 1] == r.words[..|r.words| - 1];
    } else {
      assert g[..|g| - 1] == r.words;
    }
  }

  lemma ShownEnds(r: Reading)
    requires ReadingOk(r)
    ensures var t := Shown(r); t != "" && t[|t| - 1] == '-' <==> !r.open && (r.lead || r.words != [])
  {
    if r.words != [] { JoinEnds(r.words); }
  }

  lemma FramedGrows(lead: bool, joined: string, dash: bool, c: char)
    ensures Framed(lead, (if dash then joined + "-" else joined) + [c], false) == Framed(lead, joined, dash) + [c]
  {
  }

  lemma ShownLetter(r: Reading, c: char)
    requires ReadingOk(r) && IsAlnum(c)
    ensures Shown(Next(r, c)) == Shown(r) + [c]
  {
    JoinGrown(r, c);
    FramedGrows(r.lead, Join(r.words), r.words != [] && !r.open, c);
  }

  lemma ShownSeparator(r: Reading, c: char)
    requires ReadingOk(r) && IsSeparator(c)
    ensures var t := Shown(r); Shown(Next(r, c)) == if t != "" && t[|t| - 1] == '-' then t else t + "-"
  {
    ShownEnds(r);
  }

  lemma ShownNext(r: Reading, c: char)
    requires ReadingOk(r)
    ensures var t := Shown(r);
      Shown(Next(r, c)) ==
        if IsAlnum(c) then t + [c]
        else if IsSeparator(c) then (if t != "" && t[|t| - 1] == '-' then t else t + "-")
        else t
  {
    if IsAlnum(c) {
      ShownLetter(r, c);
    } else if IsSeparator(c) {
      ShownSeparator(r, c);
    }
  }

  lemma {:induction false} ChainReads(s: string)
    ensures Squeeze(Strip(Dashed(s))) == Shown(Read(s))
  {
    if s != "" {
      var init, c := s[..|s| - 1], s[|s| - 1];
      ChainReads(init);
      ReadOk(init);
      StripDashedSnoc(s);
      SqueezeSnoc(Strip(Dashed(init)), c);
      SqueezeSnoc(Strip(Dashed(init)), '-');
      ShownNext(Read(init), c);
    }
  }

  lemma TrimShown(r: Reading)
    requires ReadingOk(r)
    ensures Trim(Shown(r), IsDash) == Join(r.words)
  {
    var j := Join(r.words);
    var tail := if r.words != [] && !r.open then "-" else "";
    if r.words != [] { JoinEnds(r.words); }
    var t := j + tail;
    assert TrimLeft(t, IsDash) == t;
    if r.lead {
      assert Shown(r) == "-" + t;
      assert ("-" + t)[1..] == t;
    } else {
      assert Shown(r) == t;
    }
    assert TrimLeft(Shown(r), IsDash) == t;
    assert TrimRight(j, IsDash) == j;
    if tail != "" { assert t[..|t| - 1] == j; }
  }

  /** Before the length limit a label is the words of the name joined by single
      dashes: spaces, underscores and dashes separate words, other characters vanish. */
  lemma LabelHyphenates(name: string)
    ensures Reduced(name) == Join(Words(Lower(TrimSpace(name))))
    ensures |Reduced(name)| <= MAX_LABEL ==> Label(name) == Join(Words(Lower(TrimSpace(name))))
  {
    var s := Lower(TrimSpace(name));
    ChainReads(s);
    ReadOk(s);
    TrimShown(Read(s));
  }
}
