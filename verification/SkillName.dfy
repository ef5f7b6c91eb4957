/** Normalising and validating skill names. */
module SkillName {

  // ---------- the code ----------

  predicate Alnum(c: char) { 'a' <= c <= 'z' || '0' <= c <= '9' }

  /** Lower-casing, as far as it can produce a character that is kept: besides A-Z these are the Kelvin
      sign and the dotted capital I, whose lower case is two characters. */
  function LowerChar(c: char): string
  {
    if 'A' <= c <= 'Z' then ['a' + (c - 'A')]
    else if c == '\U{212A}' then "k"
    else if c == '\U{0130}' then "i\U{0307}"
    else [c]
  }

  function Lower(s: string): string { if s == "" then "" else LowerChar(s[0]) + Lower(s[1..]) }

  function Underscores(s: string): string
  {
    if s == "" then "" else [if s[0] == '_' then '-' else s[0]] + Underscores(s[1..])
  }

  function Keep(s: string): string
  {
    if s == "" then "" else (if Alnum(s[0]) || s[0] == '-' then [s[0]] else "") + Keep(s[1..])
  }

  function Collapse(s: string): string
  {
    if s == "" then "" else (if |s| >= 2 && s[0] == '-' == s[1] then "" else [s[0]]) + Collapse(s[1..])
  }

  function StripLeft(s: string): string { if s != "" && s[0] == '-' then StripLeft(s[1..]) else s }

  function StripRight(s: string): string
    decreases |s|
  {
    if s != "" && s[|s| - 1] == '-' then StripRight(s[..|s| - 1]) else s
  }

  function Prepare(name: string): string { Keep(Underscores(Lower(name))) }

  function Normalize(name: string): string { StripRight(StripLeft(Collapse(Prepare(name)))) }

  /** The automaton of `[a-z0-9]+(-[a-z0-9]+)*`; `wordStart`: a letter or digit must come next. */
  predicate Accepts(s: string, wordStart: bool)
  {
    if s == "" then !wordStart
    else if Alnum(s[0]) then Accepts(s[1..], false)
    else s[0] == '-' && !wordStart && Accepts(s[1..], true)
  }

  /** `$` also matches before one final line feed. */
  predicate PatternMatches(s: string)
  {
    Accepts(s, true) || (s != "" && s[|s| - 1] == '\n' && Accepts(s[..|s| - 1], true))
  }

  datatype NameError = EmptyName | TooLong(length: nat) | BadPattern

  function Validate(name: string): seq<NameError>
  {
    if name == "" then [EmptyName]
    else (if |name| > 64 then [TooLong(|name|)] else []) + (if PatternMatches(name) then [] else [BadPattern])
  }

  // ---------- the language ----------

  predicate Word(w: string) { w != "" && forall c :: c in w ==> Alnum(c) }

  predicate Words(words: seq<string>) { forall w :: w in words ==> Word(w) }

  function Join(words: seq<string>): string
  {
    if words == [] then "" else if |words| == 1 then words[0] else words[0] + "-" + Join(words[1..])
  }

  /** Non-empty words of letters and digits, separated by single hyphens. */
  ghost predicate InLanguage(s: string)
  {
    exists words :: words != [] && Words(words) && s == Join(words)
  }

  /** The maximal runs of characters between hyphens. */
  function Runs(s: string): (runs: seq<string>)
    ensures s != "" && s[0] != '-' ==> runs != []
  {
    if s == "" then []
    else if s[0] == '-' then Runs(s[1..])
    else if |s| == 1 || s[1] == '-' then [[s[0]]] + Runs(s[1..])
    else Grow(s[0], Runs(s[1..]))
  }

  /** `c` put in front of the first word. */
  function Grow(c: char, words: seq<string>): seq<string>
    requires words != []
  {
    [[c] + words[0]] + words[1..]
  }

  lemma JoinGrow(c: char, words: seq<string>)
    requires words != []
    ensures Join(Grow(c, words)) == [c] + Join(words)
  {
    assert Grow(c, words)[1..] == words[1..];
  }

  lemma JoinCons(w: string, words: seq<string>)
    requires words != []
    ensures Join([w] + words) == w + "-" + Join(words)
  {
    assert ([w] + words)[1..] == words;
  }

  // ---------- what normalising does ----------

  predicate Clean(s: string) { forall c :: c in s ==> Alnum(c) || c == '-' }

  function Hyphen(b: bool): string { if b then "-" else "" }

  predicate Trailing(s: string) { Runs(s) != [] && s != "" && s[|s| - 1] == '-' }

  predicate Leading(s: string) { s != "" && s[0] == '-' }

  /** The runs joined, and a hyphen if some follow the last one. */
  function Body(s: string): string { Join(Runs(s)) + Hyphen(Trailing(s)) }

  /** What `Collapse` leaves: the body, and a hyphen in front if the text begins with some. */
  function Tidy(s: string): string { Hyphen(Leading(s)) + Body(s) }

  lemma {:induction false} CollapseTidies(s: string)
    ensures Collapse(s) == Tidy(s)
  {
    hide Body;
    if |s| <= 1 {
      ShortTidies(s);
    } else {
      CollapseTidies(s[1..]);
      if s[0] == '-' { BodySkips(s); } else if s[1] == '-' { BodyBreaks(s); } else { BodyGrows(s); }
    }
  }

  lemma ShortTidies(s: string)
    requires |s| <= 1
    ensures Collapse(s) == Tidy(s)
  {
    if |s| == 1 { assert s[1..] == ""; }
  }

  lemma BodySkips(s: string)
    requires |s| >= 2 && s[0] == '-'
    ensures Body(s) == Body(s[1..])
  {
    assert s[1..][|s| - 2] == s[|s| - 1];
  }

  lemma BodyGrows(s: string)
    requires |s| >= 2 && s[0] != '-' && s[1] != '-'
    ensures Body(s) == [s[0]] + Body(s[1..])
  {
    hide Join;
    assert s[1..][|s| - 2] == s[|s| - 1];
    JoinGrow(s[0], Runs(s[1..]));
    Regroup([s[0]], Join(Runs(s[1..])), Hyphen(Trailing(s)));
  }

  lemma BodyBreaks(s: string)
    requires |s| >= 2 && s[0] != '-' && s[1] == '-'
    ensures Body(s) == [s[0]] + ("-" + Body(s[1..]))
  {
    hide Join;
    var tail := s[1..];
    assert tail[|s| - 2] == s[|s| - 1];
    JoinOne([s[0]]);
    if Runs(tail) == [] {
      NoRuns(tail);
      assert Runs(s) == [[s[0]]] && Trailing(s) && !Trailing(tail);
      assert Body(tail) == "" && Body(s) == [s[0]] + "-";
    } else {
      JoinCons([s[0]], Runs(tail));
      Regroup([s[0]] + "-", Join(Runs(tail)), Hyphen(Trailing(s)));
      Regroup([s[0]], "-", Body(tail));
    }
  }

  lemma Regroup(a: string, b: string, c: string)
    ensures (a + b) + c == a + (b + c)
  {
  }

  lemma JoinOne(w: string)
    ensures Join([w]) == w && Join([]) == ""
  {
  }

  lemma {:induction false} NoRuns(s: string)
    requires Runs(s) == [] && s != ""
    ensures s[|s| - 1] == '-' && s[0] == '-'
  {
    if |s| > 1 { NoRuns(s[1..]); }
  }

  lemma {:induction false} RunsAreWords(s: string)
    requires Clean(s)
    ensures Words(Runs(s))
  {
    if s != "" {
      assert s[0] in s;
      RunsAreWords(s[1..]);
      var rest := Runs(s[1..]);
      if s[0] != '-' && |s| > 1 && s[1] != '-' {
        assert Word([s[0]] + rest[0]) by { assert rest[0] in rest; }
        assert forall w :: w in rest[1..] ==> w in rest;
      }
    }
  }

  lemma {:induction false} JoinEnds(words: seq<string>)
    requires words != [] && Words(words)
    ensures var s := Join(words); s != "" && s[0] != '-' && s[|s| - 1] != '-'
  {
    var w := words[0];
    assert w in words && w[0] in w && w[|w| - 1] in w;
    if |words| > 1 {
      assert Words(words[1..]);
      JoinEnds(words[1..]);
    }
  }

  /** Stripping a tidied text leaves exactly its runs, joined. */
  lemma StripTidy(s: string)
    requires Clean(s)
    ensures StripRight(StripLeft(Tidy(s))) == Join(Runs(s))
  {
    var body := Join(Runs(s));
    if Runs(s) == [] {
      assert body == "";
    } else {
      RunsAreWords(s);
      JoinEnds(Runs(s));
      hide Runs, Join;
      StripFront(Body(s), Leading(s));
      StripBack(body, Trailing(s));
    }
  }

  lemma StripFront(s: string, lead: bool)
    requires s != "" && s[0] != '-'
    ensures StripLeft(Hyphen(lead) + s) == s
  {
    assert ("-" + s)[1..] == s;
  }

  lemma StripBack(s: string, trail: bool)
    requires s != "" && s[|s| - 1] != '-'
    ensures StripRight(s + Hyphen(trail)) == s
  {
    assert (s + "-")[..|s|] == s;
    assert s + "" == s;
  }

  lemma {:induction false} KeepClean(s: string)
    ensures Clean(Keep(s))
  {
    if s != "" { KeepClean(s[1..]); }
  }

  /** A normalised name is the words of the prepared name joined by single hyphens. */
  lemma NormalizeJoinsRuns(name: string)
    ensures Normalize(name) == Join(Runs(Prepare(name))) && Words(Runs(Prepare(name)))
  {
    KeepClean(Underscores(Lower(name)));
    CollapseTidies(Prepare(name));
    StripTidy(Prepare(name));
    RunsAreWords(Prepare(name));
  }

  lemma {:induction false} RunsUndoJoin(words: seq<string>)
    requires Words(words)
    ensures Runs(Join(words)) == words
    decreases |words|, if words == [] then 0 else |words[0]|
  {
    if words != [] {
      var w, rest := words[0], words[1..];
      assert w in words && w[0] in w && Words(rest) && words == [w] + rest;
      if |w| == 1 {
        assert w == [w[0]];
        RunsUndoJoin(rest);
        if rest == [] { assert Join(words)[1..] == ""; }
        else { assert Join(words)[1..] == "-" + Join(rest) && ("-" + Join(rest))[1..] == Join(rest); }
        assert words == [[w[0]]] + rest;
      } else {
        var shorter := [w[1..]] + rest;
        assert w[1] in w;
        RunsUndoJoin(shorter);
        JoinGrow(w[0], shorter);
        assert [w[0]] + w[1..] == w && shorter[1..] == rest && Grow(w[0], shorter) == [w] + rest == words;
        JoinEnds(shorter);
        assert Join(words)[1..] == Join(shorter) && Join(words)[0] == w[0];
      }
    }
  }

  lemma {:induction false} PrepareKeepsClean(s: string)
    requires Clean(s)
    ensures Prepare(s) == s
  {
    if s != "" {
      assert s[0] in s;
      PrepareKeepsClean(s[1..]);
      assert Lower(s) == [s[0]] + Lower(s[1..]);
      assert Underscores(Lower(s)) == [s[0]] + Underscores(Lower(s[1..]));
      assert s == [s[0]] + s[1..];
    }
  }

  lemma {:induction false} JoinClean(words: seq<string>)
    requires Words(words)
    ensures Clean(Join(words))
  {
    if words != [] {
      assert words[0] in words && Words(words[1..]);
      JoinClean(words[1..]);
    }
  }

  /** Names that normalising leaves alone. */
  lemma FixedIff(s: string)
    ensures Normalize(s) == s <==> s == "" || InLanguage(s)
  {
    NormalizeJoinsRuns(s);
    if s != "" && InLanguage(s) {
      var words :| words != [] && Words(words) && s == Join(words);
      JoinClean(words);
      PrepareKeepsClean(s);
      RunsUndoJoin(words);
    }
  }

  /** The result is empty or in the language, so a second pass changes nothing. */
  lemma NormalizeIdempotent(name: string)
    ensures Normalize(name) == "" || InLanguage(Normalize(name))
    ensures Normalize(Normalize(name)) == Normalize(name)
  {
    NormalizeJoinsRuns(name);
    FixedIff(Normalize(name));
  }

  /** The result is empty exactly when the name has no letter or digit to keep. */
  lemma EmptyIff(name: string)
    ensures Normalize(name) == "" <==> forall c :: c in Prepare(name) ==> !Alnum(c)
  {
    var s := Prepare(name);
    NormalizeJoinsRuns(name);
    KeepClean(Underscores(Lower(name)));
    OnlyHyphens(s);
    if Runs(s) != [] { JoinEnds(Runs(s)); }
  }

  lemma {:induction false} OnlyHyphens(s: string)
    requires Clean(s)
    ensures Runs(s) == [] <==> forall c :: c in s ==> !Alnum(c)
  {
    if s != "" {
      assert s[0] in s;
      OnlyHyphens(s[1..]);
      assert forall c :: c in s <==> c == s[0] || c in s[1..];
      assert s[0] == '-' ==> !Alnum(s[0]);
    }
  }

  // ---------- laws that determine the result ----------

  lemma LowerCons(c: char, s: string)
    ensures Lower([c] + s) == LowerChar(c) + Lower(s)
  {
    assert ([c] + s)[1..] == s;
  }

  lemma {:induction false} LowerAppend(a: string, b: string)
    ensures Lower(a + b) == Lower(a) + Lower(b)
  {
    if a == "" {
      assert a + b == b;
    } else {
      hide Lower;
      var rest := a[1..] + b;
      assert a + b == [a[0]] + rest && a == [a[0]] + a[1..];
      LowerAppend(a[1..], b);
      LowerCons(a[0], rest);
      LowerCons(a[0], a[1..]);
    }
  }

  lemma UnderscoresCons(c: char, s: string)
    ensures Underscores([c] + s) == [if c == '_' then '-' else c] + Underscores(s)
  {
    assert ([c] + s)[1..] == s;
  }

  lemma {:induction false} UnderscoresAppend(a: string, b: string)
    ensures Underscores(a + b) == Underscores(a) + Underscores(b)
  {
    if a == "" {
      assert a + b == b;
    } else {
      hide Underscores;
      var rest := a[1..] + b;
      assert a + b == [a[0]] + rest && a == [a[0]] + a[1..];
      UnderscoresAppend(a[1..], b);
      UnderscoresCons(a[0], rest);
      UnderscoresCons(a[0], a[1..]);
    }
  }

  lemma KeepCons(c: char, s: string)
    ensures Keep([c] + s) == (if Alnum(c) || c == '-' then [c] else "") + Keep(s)
  {
    assert ([c] + s)[1..] == s;
  }

  lemma {:induction false} KeepAppend(a: string, b: string)
    ensures Keep(a + b) == Keep(a) + Keep(b)
  {
    if a == "" {
      assert a + b == b;
    } else {
      hide Keep;
      var rest := a[1..] + b;
      assert a + b == [a[0]] + rest && a == [a[0]] + a[1..];
      KeepAppend(a[1..], b);
      KeepCons(a[0], rest);
      KeepCons(a[0], a[1..]);
    }
  }

  lemma PrepareAppend(a: string, b: string)
    ensures Prepare(a + b) == Prepare(a) + Prepare(b)
  {
    hide Lower, Underscores, Keep;
    LowerAppend(a, b);
    UnderscoresAppend(Lower(a), Lower(b));
    KeepAppend(Underscores(Lower(a)), Underscores(Lower(b)));
  }

  lemma PrepareOne(c: char)
    ensures 'A' <= c <= 'Z' ==> Prepare([c]) == ['a' + (c - 'A')]
    ensures Alnum(c) || c == '-' ==> Prepare([c]) == [c]
    ensures c == '_' ==> Prepare([c]) == "-"
    ensures c == '\U{212A}' ==> Prepare([c]) == "k"
    ensures c == '\U{0130}' ==> Prepare([c]) == "i"
    ensures !Alnum(c) && c !in {'-', '_', '\U{212A}', '\U{0130}'} && !('A' <= c <= 'Z') ==> Prepare([c]) == ""
  {
    assert [c][1..] == "" && Lower([c]) == LowerChar(c) + "" == LowerChar(c);
    if c == '\U{0130}' {
      var mark := "\U{0307}";
      assert LowerChar(c) == "i" + mark && !Alnum(mark[0]);
      UnderscoresAppend("i", mark);
      KeepAppend("i", mark);
      KeepOne('i');
      KeepOne(mark[0]);
      assert mark == [mark[0]];
    } else {
      KeepOne(LowerChar(c)[0]);
      assert LowerChar(c) == [LowerChar(c)[0]];
    }
  }

  lemma KeepOne(d: char)
    ensures var e := if d == '_' then '-' else d;
            Underscores([d]) == [e] && Keep([e]) == if Alnum(e) || e == '-' then [e] else ""
  {
    var e := if d == '_' then '-' else d;
    assert [d][1..] == "" && [e][1..] == "" && Underscores("") == "" && Keep("") == "";
    assert [e] + "" == [e];
  }

  /** A character may be exchanged for what it counts as. */
  lemma CountsAs(a: string, c: char, d: string, b: string)
    requires Prepare([c]) == Prepare(d)
    ensures Normalize(a + [c] + b) == Normalize(a + d + b)
  {
    hide Prepare;
    PrepareAppend(a + [c], b);
    PrepareAppend(a, [c]);
    PrepareAppend(a + d, b);
    PrepareAppend(a, d);
  }

  /** A capital counts as its small letter, an underscore as a hyphen, and a character that is neither a
      letter nor a digit nor one of those as nothing. */
  lemma CharacterLaws(a: string, c: char, b: string)
    ensures 'A' <= c <= 'Z' ==> Normalize(a + [c] + b) == Normalize(a + ['a' + (c - 'A')] + b)
    ensures Normalize(a + "_" + b) == Normalize(a + "-" + b)
    ensures !Alnum(c) && c !in {'-', '_', '\U{212A}', '\U{0130}'} && !('A' <= c <= 'Z') ==>
              Normalize(a + [c] + b) == Normalize(a + b)
  {
    hide Prepare, Normalize;
    PrepareOne(c);
    PrepareOne('_');
    PrepareOne('-');
    PrepareNothing();
    if 'A' <= c <= 'Z' {
      PrepareOne('a' + (c - 'A'));
      CountsAs(a, c, ['a' + (c - 'A')], b);
    }
    CountsAs(a, '_', "-", b);
    if Prepare([c]) == "" {
      CountsAs(a, c, "", b);
      assert a + "" + b == a + b;
    }
  }

  lemma PrepareNothing()
    ensures Prepare("") == ""
  {
  }

  lemma {:induction false} RunsLead(s: string)
    ensures Runs("-" + s) == Runs(s)
  {
    assert ("-" + s)[1..] == s;
  }

  lemma {:induction false} RunsDouble(a: string, b: string)
    ensures Runs(a + "--" + b) == Runs(a + "-" + b)
  {
    var x, y := a + "--" + b, a + "-" + b;
    if a == "" {
      assert x == "-" + ("-" + b) && y == "-" + b;
      RunsLead("-" + b);
    } else {
      assert x[1..] == a[1..] + "--" + b && y[1..] == a[1..] + "-" + b;
      RunsDouble(a[1..], b);
    }
  }

  lemma {:induction false} RunsTrail(s: string)
    ensures Runs(s + "-") == Runs(s)
  {
    var x := s + "-";
    if s == "" {
      assert x[1..] == "";
    } else {
      assert x[1..] == s[1..] + "-";
      RunsTrail(s[1..]);
    }
  }

  /** Hyphens at the ends count as nothing, and several count as one. */
  lemma HyphenLaws(a: string, b: string)
    ensures Normalize("-" + a) == Normalize(a) && Normalize(a + "-") == Normalize(a)
    ensures Normalize(a + "--" + b) == Normalize(a + "-" + b)
  {
    hide Prepare, Normalize, Runs, Join;
    PrepareOne('-');
    PrepareAppend("-", a);
    PrepareAppend(a, "-");
    PrepareAppend("-", "-");
    assert "-" + "-" == "--";
    PrepareAppend(a, "--");
    PrepareAppend(a + "--", b);
    PrepareAppend(a, "-");
    PrepareAppend(a + "-", b);
    NormalizeJoinsRuns("-" + a);
    NormalizeJoinsRuns(a + "-");
    NormalizeJoinsRuns(a);
    NormalizeJoinsRuns(a + "--" + b);
    NormalizeJoinsRuns(a + "-" + b);
    RunsLead(Prepare(a));
    RunsTrail(Prepare(a));
    RunsDouble(Prepare(a), Prepare(b));
  }

  // ---------- what validating accepts ----------

  lemma {:induction false} AcceptsRuns(s: string, wordStart: bool)
    requires Accepts(s, wordStart)
    ensures Clean(s)
    ensures s != "" && s[0] != '-' ==> s == Join(Runs(s))
    ensures s != "" && s[0] == '-' ==> s[1..] != "" && s[1] != '-' && s[1..] == Join(Runs(s[1..]))
  {
    hide Join;
    JoinOne("");
    if s != "" {
      AcceptsRuns(s[1..], !Alnum(s[0]));
      assert s == [s[0]] + s[1..];
      if s[0] != '-' {
        if |s| == 1 {
          JoinOne(s);
          assert Runs(s) == [[s[0]]] && s == [s[0]];
        } else if s[1] == '-' {
          assert s[1..][1..] != "";
          JoinCons([s[0]], Runs(s[1..]));
          assert s[1..] == "-" + s[1..][1..];
        } else {
          JoinGrow(s[0], Runs(s[1..]));
        }
      }
    }
  }

  lemma {:induction false} JoinAccepted(words: seq<string>)
    requires words != [] && Words(words)
    ensures Accepts(Join(words), true)
    decreases |words|, |words[0]|
  {
    var w, rest := words[0], words[1..];
    assert w in words && w[0] in w && Words(rest);
    if |w| == 1 {
      if rest == [] {
        assert Join(words)[1..] == "";
      } else {
        JoinAccepted(rest);
        assert Join(words)[1..] == "-" + Join(rest) && ("-" + Join(rest))[1..] == Join(rest);
      }
    } else {
      var shorter := [w[1..]] + rest;
      assert w[1] in w;
      JoinAccepted(shorter);
      JoinGrow(w[0], shorter);
      assert [w[0]] + w[1..] == w && shorter[1..] == rest && Grow(w[0], shorter) == [w] + rest == words;
      JoinEnds(shorter);
      assert Join(words)[1..] == Join(shorter);
      StartOrNot(Join(shorter));
    }
  }

  lemma StartOrNot(s: string)
    requires Accepts(s, true)
    ensures Accepts(s, false)
  {
  }

  lemma AcceptsIff(s: string)
    ensures Accepts(s, true) <==> InLanguage(s)
  {
    if Accepts(s, true) {
      AcceptsRuns(s, true);
      RunsAreWords(s);
    }
    if InLanguage(s) {
      var words :| words != [] && Words(words) && s == Join(words);
      JoinAccepted(words);
    }
  }

  /** Validation accepts the language up to 64 characters, and also such a name with a line feed added. */
  lemma ValidIff(name: string)
    ensures Validate(name) == [] <==>
            |name| <= 64 && (InLanguage(name) ||
                (name != "" && name[|name| - 1] == '\n' && InLanguage(name[..|name| - 1])))
  {
    AcceptsIff(name);
    if name != "" { AcceptsIff(name[..|name| - 1]); }
    if InLanguage("") { AcceptsIff(""); }
  }

  /** Each complaint is made exactly when it applies. */
  lemma ComplaintsIff(name: string)
    ensures EmptyName in Validate(name) <==> name == ""
    ensures TooLong(|name|) in Validate(name) <==> |name| > 64
    ensures BadPattern in Validate(name) <==> name != "" && !PatternMatches(name)
    ensures forall e :: e in Validate(name) ==> e.TooLong? ==> e.length == |name|
  {
  }

  /** A normalised name is accepted unless it is empty or too long. */
  lemma NormalizedIsValidIff(name: string)
    ensures Validate(Normalize(name)) == [] <==> 1 <= |Normalize(name)| <= 64
  {
    var s := Normalize(name);
    NormalizeIdempotent(name);
    ValidIff(s);
  }
}
