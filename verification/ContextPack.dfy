/** Context assembly under a character budget, and the cache of assembled context. */
module ContextPack {
  import opened Text

  datatype Snippet = Snippet(path: string, startLine: Option<int>, endLine: Option<int>, content: string,
      reason: string)

  /** One round of collection: given the files included so far, the snippets it offers in order. It may
      skip files already included, or rank only the others. */
  type Stage = seq<string> -> seq<Snippet>

  /** The variables shared by all rounds; `cuts` are the paths named in "Truncated snippet for" notes. */
  datatype Assembly = Assembly(files: seq<string>, snippets: seq<Snippet>, total: int, cuts: seq<string>)

  const EMPTY := Assembly([], [], 0, [])

  // ---------- assembling ----------

  function Include(files: seq<string>, path: string): seq<string>
  {
    if path in files then files else files + [path]
  }

  function Add(maxChars: int, sanitize: string -> string, st: Assembly, offer: Snippet): Assembly
  {
    var content := sanitize(offer.content);
    var remaining := maxChars - st.total;
    if offer.content == "" || remaining <= 0 then st
    else if |content| > remaining then
      Assembly(Include(st.files, offer.path), st.snippets + [offer.(content := content[..remaining])],
          st.total + remaining, st.cuts + [offer.path])
    else
      Assembly(Include(st.files, offer.path), st.snippets + [offer.(content := content)], st.total + |content|, st.cuts)
  }

  function AddAll(maxChars: int, sanitize: string -> string, st: Assembly, offers: seq<Snippet>): Assembly
    decreases |offers|
  {
    if offers == [] then st else AddAll(maxChars, sanitize, Add(maxChars, sanitize, st, offers[0]), offers[1..])
  }

  function Assemble(maxChars: int, sanitize: string -> string, st: Assembly, stages: seq<Stage>): Assembly
    decreases |stages|
  {
    if stages == [] then st
    else Assemble(maxChars, sanitize, AddAll(maxChars, sanitize, st, stages[0](st.files)), stages[1..])
  }

  class PackBuilder {
    const maxChars: int
    const sanitize: string -> string
    var files: seq<string>
    var snippets: seq<Snippet>
    var total: int
    var cuts: seq<string>

    function Current(): Assembly
      reads this
    {
      Assembly(files, snippets, total, cuts)
    }

    constructor (maxChars: int, sanitize: string -> string)
      ensures this.maxChars == maxChars && this.sanitize == sanitize && Current() == EMPTY
    {
      this.maxChars, this.sanitize := maxChars, sanitize;
      files, snippets, total, cuts := [], [], 0, [];
    }

    method AddSnippet(offer: Snippet)
      modifies this
      ensures Current() == Add(maxChars, sanitize, old(Current()), offer)
    {
      if offer.content == "" { return; }
      var content := sanitize(offer.content);
      var remaining := maxChars - total;
      if remaining <= 0 { return; }
      if |content| > remaining {
        content := content[..remaining];
        cuts := cuts + [offer.path];
      }
      snippets := snippets + [offer.(content := content)];
      total := total + |content|;
      if offer.path !in files { files := files + [offer.path]; }
    }

    method AddRound(stage: Stage)
      modifies this
      ensures Current() == AddAll(maxChars, sanitize, old(Current()), stage(old(files)))
    {
      var offers := stage(files);
      assert offers[0..] == offers;
      for i := 0 to |offers|
        invariant AddAll(maxChars, sanitize, Current(), offers[i..]) ==
            AddAll(maxChars, sanitize, old(Current()), offers)
      {
        assert offers[i..][1..] == offers[i + 1..];
        AddSnippet(offers[i]);
      }
    }

    method Build(stages: seq<Stage>)
      modifies this
      ensures Current() == Assemble(maxChars, sanitize, old(Current()), stages)
    {
      assert stages[0..] == stages;
      for i := 0 to |stages|
        invariant Assemble(maxChars, sanitize, Current(), stages[i..]) ==
            Assemble(maxChars, sanitize, old(Current()), stages)
      {
        assert stages[i..][1..] == stages[i + 1..];
        AddRound(stages[i]);
      }
    }
  }

  // ---------- the same rounds without a budget ----------

  function FreeAdd(sanitize: string -> string, st: Assembly, offer: Snippet): Assembly
  {
    var content := sanitize(offer.content);
    if offer.content == "" then st
    else Assembly(Include(st.files, offer.path), st.snippets + [offer.(content := content)], st.total + |content|, [])
  }

  function FreeAddAll(sanitize: string -> string, st: Assembly, offers: seq<Snippet>): Assembly
    decreases |offers|
  {
    if offers == [] then st else FreeAddAll(sanitize, FreeAdd(sanitize, st, offers[0]), offers[1..])
  }

  function FreeAssemble(sanitize: string -> string, st: Assembly, stages: seq<Stage>): Assembly
    decreases |stages|
  {
    if stages == [] then st else FreeAssemble(sanitize, FreeAddAll(sanitize, st, stages[0](st.files)), stages[1..])
  }

  function Total(snippets: seq<Snippet>): nat
  {
    if snippets == [] then 0 else |snippets[0].content| + Total(snippets[1..])
  }

  function TextOf(snippets: seq<Snippet>): (text: string)
    ensures |text| == Total(snippets)
  {
    if snippets == [] then "" else snippets[0].content + TextOf(snippets[1..])
  }

  /** The snippets that fit, the last one shortened if it only fits in part. */
  function Clip(snippets: seq<Snippet>, budget: int): seq<Snippet>
    decreases |snippets|
  {
    if snippets == [] || budget <= 0 then []
    else if |snippets[0].content| > budget then [snippets[0].(content := snippets[0].content[..budget])]
    else [snippets[0]] + Clip(snippets[1..], budget - |snippets[0].content|)
  }

  /** Paths of the snippets shortened by `Clip`. */
  function Shortened(snippets: seq<Snippet>, budget: int): seq<string>
    decreases |snippets|
  {
    if snippets == [] || budget <= 0 then []
    else if |snippets[0].content| > budget then [snippets[0].path]
    else Shortened(snippets[1..], budget - |snippets[0].content|)
  }

  function Paths(snippets: seq<Snippet>): seq<string>
  {
    if snippets == [] then [] else Paths(snippets[..|snippets| - 1]) + [snippets[|snippets| - 1].path]
  }

  /** Distinct elements in order of first appearance. */
  function Distinct(paths: seq<string>): seq<string>
  {
    if paths == [] then [] else Include(Distinct(paths[..|paths| - 1]), paths[|paths| - 1])
  }

  predicate Tracks(maxChars: int, st: Assembly, free: Assembly)
  {
    && st.snippets == Clip(free.snippets, maxChars) && st.cuts == Shortened(free.snippets, maxChars)
    && free.total == Total(free.snippets)
    && st.total == (if maxChars <= 0 then 0 else if free.total <= maxChars then free.total else maxChars)
    && (free.total < maxChars ==> st.files == free.files && st.snippets == free.snippets)
    && st.files == Distinct(Paths(st.snippets))
  }

  lemma {:induction false} TotalSnoc(snippets: seq<Snippet>, x: Snippet)
    ensures Total(snippets + [x]) == Total(snippets) + |x.content|
  {
    if snippets == [] {
      assert [] + [x] == [x];
    } else {
      assert (snippets + [x])[1..] == snippets[1..] + [x];
      TotalSnoc(snippets[1..], x);
    }
  }

  lemma {:induction false} ClipSnoc(snippets: seq<Snippet>, x: Snippet, budget: int)
    ensures ClipsTo(snippets, x, budget)
    decreases |snippets|
  {
    if snippets == [] {
      assert [] + [x] == [x];
    } else {
      ClipSnoc(snippets[1..], x, budget - |snippets[0].content|);
      ClipsToCons(snippets[0], snippets[1..], x, budget);
      assert snippets == [snippets[0]] + snippets[1..];
    }
  }

  lemma ClipsToCons(head: Snippet, rest: seq<Snippet>, x: Snippet, budget: int)
    requires ClipsTo(rest, x, budget - |head.content|)
    ensures ClipsTo([head] + rest, x, budget)
  {
    hide Clip, Shortened, Total;
    ClipUnfold(head, rest, budget);
    ClipUnfold(head, rest + [x], budget);
    assert [head] + rest + [x] == [head] + (rest + [x]);
  }

  /** One more snippet after `snippets`: dropped, shortened or kept. */
  predicate ClipsTo(snippets: seq<Snippet>, x: Snippet, budget: int)
  {
    var remaining := budget - Total(snippets);
    if remaining <= 0 then
      Clip(snippets + [x], budget) == Clip(snippets, budget) &&
          Shortened(snippets + [x], budget) == Shortened(snippets, budget)
    else if |x.content| > remaining then
      && Clip(snippets + [x], budget) == snippets + [x.(content := x.content[..remaining])]
      && Shortened(snippets + [x], budget) == [x.path]
    else
      Clip(snippets + [x], budget) == snippets + [x] && Shortened(snippets + [x], budget) == []
  }

  lemma ClipUnfold(head: Snippet, rest: seq<Snippet>, budget: int)
    ensures Clip([head] + rest, budget) ==
            if budget <= 0 then []
            else if |head.content| > budget then [head.(content := head.content[..budget])]
            else [head] + Clip(rest, budget - |head.content|)
    ensures Shortened([head] + rest, budget) ==
            if budget <= 0 then []
            else if |head.content| > budget then [head.path]
            else Shortened(rest, budget - |head.content|)
    ensures Total([head] + rest) == |head.content| + Total(rest)
  {
    assert ([head] + rest)[1..] == rest;
  }

  lemma PathsSnoc(snippets: seq<Snippet>, x: Snippet)
    ensures Distinct(Paths(snippets + [x])) == Include(Distinct(Paths(snippets)), x.path)
  {
    assert (snippets + [x])[..|snippets|] == snippets;
    var paths := Paths(snippets);
    assert Paths(snippets + [x]) == paths + [x.path];
    assert (paths + [x.path])[..|paths|] == paths;
  }

  lemma AddTracks(maxChars: int, sanitize: string -> string, st: Assembly, free: Assembly, offer: Snippet)
    requires Tracks(maxChars, st, free)
    ensures Tracks(maxChars, Add(maxChars, sanitize, st, offer), FreeAdd(sanitize, free, offer))
  {
    hide Clip, Shortened, Total, Distinct, Paths;
    var whole := offer.(content := sanitize(offer.content));
    TotalSnoc(free.snippets, whole);
    ClipSnoc(free.snippets, whole, maxChars);
    if free.total < maxChars { ClipAll(free.snippets, maxChars); }
    var next := Add(maxChars, sanitize, st, offer);
    if next.snippets != st.snippets { PathsSnoc(st.snippets, next.snippets[|next.snippets| - 1]); }
  }

  lemma {:induction false} ClipAll(snippets: seq<Snippet>, budget: int)
    requires Total(snippets) < budget
    ensures Clip(snippets, budget) == snippets && Shortened(snippets, budget) == []
    decreases |snippets|
  {
    if snippets != [] { ClipAll(snippets[1..], budget - |snippets[0].content|); }
  }

  /** Once the budget is used up further offers change nothing, so offers may differ from then on. */
  lemma {:induction false} AddAllFull(maxChars: int, sanitize: string -> string, st: Assembly, offers: seq<Snippet>)
    requires st.total >= maxChars
    ensures AddAll(maxChars, sanitize, st, offers) == st
    decreases |offers|
  {
    if offers != [] { AddAllFull(maxChars, sanitize, st, offers[1..]); }
  }

  lemma {:induction false} FreeAddAllFull(maxChars: int, sanitize: string -> string, st: Assembly,
      free: Assembly, offers: seq<Snippet>)
    requires Tracks(maxChars, st, free) && free.total >= maxChars
    ensures Tracks(maxChars, st, FreeAddAll(sanitize, free, offers)) &&
        FreeAddAll(sanitize, free, offers).total >= maxChars
    decreases |offers|
  {
    hide Tracks;
    if offers != [] {
      AddTracks(maxChars, sanitize, st, free, offers[0]);
      FullUnchanged(maxChars, sanitize, st, free, offers[0]);
      FreeAddAllFull(maxChars, sanitize, st, FreeAdd(sanitize, free, offers[0]), offers[1..]);
    }
  }

  lemma FullUnchanged(maxChars: int, sanitize: string -> string, st: Assembly, free: Assembly, offer: Snippet)
    requires Tracks(maxChars, st, free) && free.total >= maxChars
    ensures Add(maxChars, sanitize, st, offer) == st && st.total >= maxChars
  {
  }

  lemma {:induction false} AddAllTracks(maxChars: int, sanitize: string -> string, st: Assembly, free: Assembly,
      offers: seq<Snippet>)
    requires Tracks(maxChars, st, free)
    ensures Tracks(maxChars, AddAll(maxChars, sanitize, st, offers), FreeAddAll(sanitize, free, offers))
    decreases |offers|
  {
    hide Tracks;
    if offers != [] {
      AddTracks(maxChars, sanitize, st, free, offers[0]);
      AddAllTracks(maxChars, sanitize, Add(maxChars, sanitize, st, offers[0]),
          FreeAdd(sanitize, free, offers[0]), offers[1..]);
    }
  }

  lemma RoundTracks(maxChars: int, sanitize: string -> string, st: Assembly, free: Assembly, stage: Stage)
    requires Tracks(maxChars, st, free)
    ensures Tracks(maxChars, AddAll(maxChars, sanitize, st, stage(st.files)),
        FreeAddAll(sanitize, free, stage(free.files)))
  {
    hide AddAll, FreeAddAll, Clip, Shortened;
    if free.total >= maxChars {
      AddAllFull(maxChars, sanitize, st, stage(st.files));
      FreeAddAllFull(maxChars, sanitize, st, free, stage(free.files));
    } else {
      AddAllTracks(maxChars, sanitize, st, free, stage(st.files));
    }
  }

  lemma {:induction false} AssembleTracks(maxChars: int, sanitize: string -> string, st: Assembly,
      free: Assembly, stages: seq<Stage>)
    requires Tracks(maxChars, st, free)
    ensures Tracks(maxChars, Assemble(maxChars, sanitize, st, stages), FreeAssemble(sanitize, free, stages))
    decreases |stages|
  {
    hide Tracks;
    if stages != [] {
      RoundTracks(maxChars, sanitize, st, free, stages[0]);
      AssembleTracks(maxChars, sanitize, AddAll(maxChars, sanitize, st, stages[0](st.files)),
                     FreeAddAll(sanitize, free, stages[0](free.files)), stages[1..]);
    }
  }

  // ---------- the main results ----------

  /** `Clip` leaves the beginning of the text. */
  lemma {:induction false} ClipText(snippets: seq<Snippet>, budget: int)
    ensures TextOf(Clip(snippets, budget)) == TextOf(snippets)[..Least(budget, Total(snippets))]
    decreases |snippets|
  {
    if snippets != [] && budget > 0 {
      var head := snippets[0].content;
      var c := Clip(snippets, budget);
      if |head| <= budget {
        ClipText(snippets[1..], budget - |head|);
        assert c[1..] == Clip(snippets[1..], budget - |head|);
      } else {
        assert c[1..] == [];
        assert (head + TextOf(snippets[1..]))[..budget] == head[..budget];
      }
    }
  }

  /** `Clip` shortens at most one snippet and leaves nothing after it. */
  lemma {:induction false} ClipShape(snippets: seq<Snippet>, budget: int)
    ensures Clipped(snippets, Clip(snippets, budget), Shortened(snippets, budget))
    decreases |snippets|
  {
    if snippets != [] && 0 < budget {
      var head := snippets[0].content;
      if |head| <= budget {
        ClipShape(snippets[1..], budget - |head|);
        ClippedCons(snippets[0], snippets[1..], Clip(snippets[1..], budget - |head|),
            Shortened(snippets[1..], budget - |head|));
        assert snippets == [snippets[0]] + snippets[1..];
      }
    }
  }

  /** `c` is a prefix of `snippets`, but for its last snippet when that one is named as shortened. */
  predicate Clipped(snippets: seq<Snippet>, c: seq<Snippet>, cuts: seq<string>)
  {
    var k := |c|;
    && k <= |snippets|
    && (cuts == [] ==> c == snippets[..k])
    && (cuts != [] ==>
        && k > 0 && cuts == [c[k - 1].path]
        && c[..k - 1] == snippets[..k - 1]
        && c[k - 1].content < snippets[k - 1].content
        && c[k - 1] == snippets[k - 1].(content := c[k - 1].content))
  }

  lemma ClippedCons(x: Snippet, snippets: seq<Snippet>, c: seq<Snippet>, cuts: seq<string>)
    requires Clipped(snippets, c, cuts)
    ensures Clipped([x] + snippets, [x] + c, cuts)
  {
    var k := |c|;
    if cuts == [] {
      assert ([x] + snippets)[..k + 1] == [x] + snippets[..k];
    } else {
      assert ([x] + snippets)[..k] == [x] + snippets[..k - 1];
      assert ([x] + c)[..k] == [x] + c[..k - 1];
    }
  }

  /** The lesser of a budget and a length, not below zero. */
  function Least(budget: int, length: nat): (n: nat)
    ensures n <= length
  {
    if budget <= 0 then 0 else if budget <= length then budget else length
  }

  /** A pack is the unlimited pack clipped to the budget: its text is exactly the first `maxChars`
      characters of the unlimited text, whatever the rounds offer. */
  lemma BudgetedIsClipped(maxChars: int, sanitize: string -> string, stages: seq<Stage>)
    ensures var st, free := Assemble(maxChars, sanitize, EMPTY, stages), FreeAssemble(sanitize, EMPTY, stages);
            && st.snippets == Clip(free.snippets, maxChars) && st.cuts == Shortened(free.snippets, maxChars)
            && TextOf(st.snippets) == TextOf(free.snippets)[..Least(maxChars, Total(free.snippets))]
            && st.total == Total(st.snippets) == Least(maxChars, Total(free.snippets))
            && Clipped(free.snippets, st.snippets, st.cuts)
  {
    hide Assemble, FreeAssemble;
    AssembleTracks(maxChars, sanitize, EMPTY, EMPTY, stages);
    var free := FreeAssemble(sanitize, EMPTY, stages);
    ClipText(free.snippets, maxChars);
    ClipShape(free.snippets, maxChars);
  }

  predicate Repeats(s: seq<string>) { exists i, j :: 0 <= i < j < |s| && s[i] == s[j] }

  /** Every element of `paths[..n]` is in `r`, in the order of first appearance. */
  ghost predicate InFirstOrder(r: seq<string>, paths: seq<string>)
  {
    && (forall p :: p in r <==> p in paths)
    && (forall i, j :: 0 <= i < j < |r| ==> exists n :: 0 <= n < |paths| && paths[n] == r[i] && r[j] !in paths[..n + 1])
  }

  lemma {:induction false} DistinctInOrder(paths: seq<string>)
    ensures !Repeats(Distinct(paths)) && InFirstOrder(Distinct(paths), paths)
  {
    if paths != [] {
      var init, last := paths[..|paths| - 1], paths[|paths| - 1];
      DistinctInOrder(init);
      var before, r := Distinct(init), Distinct(paths);
      assert paths == init + [last];
      forall i, j | 0 <= i < j < |r|
          ensures exists n :: 0 <= n < |paths| && paths[n] == r[i] && r[j] !in paths[..n + 1] {
        if j < |before| {
          var n :| 0 <= n < |init| && init[n] == before[i] && before[j] !in init[..n + 1];
          assert paths[..n + 1] == init[..n + 1];
          assert paths[n] == r[i];
        } else {
          assert before[i] in init;
          var n :| 0 <= n < |init| && init[n] == before[i];
          assert paths[..n + 1] == init[..n + 1];
          assert paths[n] == r[i];
        }
      }
    }
  }

  /** `files_included`: the paths of the snippets, each once, in order of first appearance. */
  lemma FilesInFirstOrder(maxChars: int, sanitize: string -> string, stages: seq<Stage>)
    ensures var st := Assemble(maxChars, sanitize, EMPTY, stages);
            !Repeats(st.files) && InFirstOrder(st.files, Paths(st.snippets))
  {
    hide Assemble, FreeAssemble;
    AssembleTracks(maxChars, sanitize, EMPTY, EMPTY, stages);
    DistinctInOrder(Paths(Assemble(maxChars, sanitize, EMPTY, stages).snippets));
  }

  // ---------- what the unlimited pack holds ----------

  /** The offers that have content, sanitised; everything else about them is kept. */
  function Kept(sanitize: string -> string, offers: seq<Snippet>): seq<Snippet>
  {
    if offers == [] then []
    else
      (if offers[0].content == "" then [] else [offers[0].(content := sanitize(offers[0].content))])
      + Kept(sanitize, offers[1..])
  }

  /** One round adds exactly its offers that have content. */
  lemma {:induction false} RoundKeeps(sanitize: string -> string, st: Assembly, offers: seq<Snippet>)
    ensures FreeAddAll(sanitize, st, offers).snippets == st.snippets + Kept(sanitize, offers)
    decreases |offers|
  {
    if offers == [] {
      assert st.snippets + [] == st.snippets;
    } else {
      var next := FreeAdd(sanitize, st, offers[0]);
      RoundKeeps(sanitize, next, offers[1..]);
      if offers[0].content != "" {
        var x := offers[0].(content := sanitize(offers[0].content));
        assert (st.snippets + [x]) + Kept(sanitize, offers[1..]) == st.snippets + ([x] + Kept(sanitize, offers[1..]));
      } else {
        assert [] + Kept(sanitize, offers[1..]) == Kept(sanitize, offers[1..]);
      }
    }
  }

  /** Every kept snippet is an offer with its place, lines and reason. */
  lemma {:induction false} KeptIsOffered(sanitize: string -> string, offers: seq<Snippet>, x: Snippet)
    requires x in Kept(sanitize, offers)
    ensures exists i :: 0 <= i < |offers| && offers[i].content != "" && x.content == sanitize(offers[i].content) &&
              x.path == offers[i].path && x.reason == offers[i].reason &&
              x.startLine == offers[i].startLine && x.endLine == offers[i].endLine
  {
    if offers[0].content == "" || x != offers[0].(content := sanitize(offers[0].content)) {
      KeptIsOffered(sanitize, offers[1..], x);
      var i :| 0 <= i < |offers[1..]| && offers[1..][i].content != "" &&
          x.content == sanitize(offers[1..][i].content) &&
               x.path == offers[1..][i].path && x.reason == offers[1..][i].reason &&
               x.startLine == offers[1..][i].startLine && x.endLine == offers[1..][i].endLine;
      assert offers[1..][i] == offers[i + 1];
    }
  }

  // ---------- the cache ----------

  datatype Pack = Pack(filesIncluded: seq<string>, snippets: seq<Snippet>, symbols: seq<string>, totalChars: int,
                       notes: seq<string>, fingerprint: string, cached: bool, generatedAt: string)

  /** The stored object: every key may be missing when it is read. */
  datatype StoredSnippet = StoredSnippet(path: Option<string>, startLine: Option<int>, endLine: Option<int>,
                                         content: Option<string>, reason: Option<string>)

  datatype Stored = Stored(
    filesIncluded: Option<seq<string>>,
    snippets: Option<seq<StoredSnippet>>,
    symbols: Option<seq<string>>,
    totalChars: Option<int>,
    notes: Option<seq<string>>,
    fingerprint: Option<string>,
    generatedAt: Option<string>)

  function Or<T>(o: Option<T>, default: T): T { if o.Some? then o.value else default }

  function StoreSnippets(snippets: seq<Snippet>): seq<StoredSnippet>
  {
    if snippets == [] then []
    else [StoredSnippet(Some(snippets[0].path), snippets[0].startLine, snippets[0].endLine,
        Some(snippets[0].content), Some(snippets[0].reason))]
         + StoreSnippets(snippets[1..])
  }

  /** None: a snippet has no path, a `KeyError`. */
  function LoadSnippets(stored: seq<StoredSnippet>): Option<seq<Snippet>>
  {
    if stored == [] then Some([])
    else
      match LoadSnippets(stored[1..])
      case None => None
      case Some(rest) =>
        if stored[0].path.None? then None
        else Some([Snippet(stored[0].path.value, stored[0].startLine, stored[0].endLine,
            Or(stored[0].content, ""), Or(stored[0].reason, ""))] + rest)
  }

  function Save(p: Pack): Stored
  {
    Stored(Some(p.filesIncluded), Some(StoreSnippets(p.snippets)), Some(p.symbols), Some(p.totalChars), Some(p.notes),
           Some(p.fingerprint), Some(p.generatedAt))
  }

  function Load(s: Stored, fingerprint: string): Option<Pack>
  {
    match LoadSnippets(Or(s.snippets, []))
    case None => None
    case Some(snippets) =>
      Some(Pack(Or(s.filesIncluded, []), snippets, Or(s.symbols, []), Or(s.totalChars, 0), Or(s.notes, []),
                Or(s.fingerprint, fingerprint), true, Or(s.generatedAt, "")))
  }

  lemma {:induction false} LoadStoredSnippets(snippets: seq<Snippet>)
    ensures LoadSnippets(StoreSnippets(snippets)) == Some(snippets)
  {
    if snippets != [] {
      LoadStoredSnippets(snippets[1..]);
      var stored := StoreSnippets(snippets);
      assert stored[1..] == StoreSnippets(snippets[1..]);
      assert snippets == [snippets[0]] + snippets[1..];
    }
  }

  /** A stored pack comes back whole, marked as cached. */
  lemma LoadUndoesSave(p: Pack, fingerprint: string)
    ensures Load(Save(p), fingerprint) == Some(p.(cached := true))
  {
    LoadStoredSnippets(p.snippets);
  }

  // ---------- requests ----------

  /** One call of `build_context_pack`; the fingerprint does not depend on `maxChars`. */
  datatype Ask = Ask(fingerprint: string, maxChars: int, stages: seq<Stage>, symbols: seq<string>, generatedAt: string)

  function CutNotes(paths: seq<string>): seq<string>
  {
    if paths == [] then [] else ["Truncated snippet for " + paths[0] + "."] + CutNotes(paths[1..])
  }

  function PackOf(st: Assembly, ask: Ask): Pack
  {
    Pack(st.files, st.snippets, ask.symbols, st.total, CutNotes(st.cuts), ask.fingerprint, false, ask.generatedAt)
  }

  function Fresh(sanitize: string -> string, ask: Ask): Pack
  {
    PackOf(Assemble(ask.maxChars, sanitize, EMPTY, ask.stages), ask)
  }

  type PackFiles = map<string, Stored>

  /** The answer, and the cache directory afterwards; None: the stored pack is unreadable. */
  function Respond(sanitize: string -> string, files: PackFiles, ask: Ask): (Option<Pack>, PackFiles)
  {
    if ask.fingerprint in files then (Load(files[ask.fingerprint], ask.fingerprint), files)
    else (Some(Fresh(sanitize, ask)), files[ask.fingerprint := Save(Fresh(sanitize, ask))])
  }

  /** The cache directory after some requests, starting with none. */
  function Served(sanitize: string -> string, asks: seq<Ask>): PackFiles
  {
    if asks == [] then map[] else Respond(sanitize, Served(sanitize, asks[..|asks| - 1]), asks[|asks| - 1]).1
  }

  class PackCache {
    const sanitize: string -> string
    var files: PackFiles

    constructor (sanitize: string -> string)
      ensures this.sanitize == sanitize && files == map[]
    {
      this.sanitize := sanitize;
      files := map[];
    }

    method Request(ask: Ask) returns (pack: Option<Pack>)
      modifies this
      ensures (pack, files) == Respond(sanitize, old(files), ask)
    {
      if ask.fingerprint in files { return Load(files[ask.fingerprint], ask.fingerprint); }
      var builder := new PackBuilder(ask.maxChars, sanitize);
      builder.Build(ask.stages);
      var made := PackOf(builder.Current(), ask);
      files := files[made.fingerprint := Save(made)];
      return Some(made);
    }
  }

  /** The first request with this fingerprint. */
  function FirstAsk(asks: seq<Ask>, fingerprint: string): (r: Option<nat>)
    ensures r.Some? ==> r.value < |asks| && asks[r.value].fingerprint == fingerprint
    ensures r.Some? ==> forall i :: 0 <= i < r.value ==> asks[i].fingerprint != fingerprint
    ensures r.None? ==> forall i :: 0 <= i < |asks| ==> asks[i].fingerprint != fingerprint
  {
    if asks == [] then None
    else
      var before := FirstAsk(asks[..|asks| - 1], fingerprint);
      if before.Some? then before
      else if asks[|asks| - 1].fingerprint == fingerprint then Some(|asks| - 1)
      else None
  }

  /** The cache holds, for each fingerprint asked for, the pack made for the first such request. */
  lemma {:induction false} ServedHoldsFirst(sanitize: string -> string, asks: seq<Ask>, fingerprint: string)
    ensures var first := FirstAsk(asks, fingerprint);
            if first.None? then fingerprint !in Served(sanitize, asks)
            else
              && fingerprint in Served(sanitize, asks)
              && Served(sanitize, asks)[fingerprint] == Save(Fresh(sanitize, asks[first.value]))
  {
    hide Fresh, Save, Load;
    if asks != [] {
      var before := asks[..|asks| - 1];
      ServedHoldsFirst(sanitize, before, fingerprint);
      ServedHoldsFirst(sanitize, before, asks[|asks| - 1].fingerprint);
    }
  }

  /** What a request is answered with: its own fresh pack, or the first one's marked as cached. */
  lemma AnswerIsFirst(sanitize: string -> string, asks: seq<Ask>, ask: Ask)
    ensures var first := FirstAsk(asks, ask.fingerprint);
            Respond(sanitize, Served(sanitize, asks), ask).0 ==
            Some(if first.None? then Fresh(sanitize, ask) else Fresh(sanitize, asks[first.value]).(cached := true))
  {
    hide Fresh, Save, Load, Served;
    ServedHoldsFirst(sanitize, asks, ask.fingerprint);
    var first := FirstAsk(asks, ask.fingerprint);
    if first.Some? { LoadUndoesSave(Fresh(sanitize, asks[first.value]), ask.fingerprint); }
  }

  /** The pack's snippets keep within a budget. */
  predicate WithinBudget(pack: Pack, maxChars: int) { Total(pack.snippets) <= Max(0, maxChars) }

  lemma FreshTotals(sanitize: string -> string, ask: Ask)
    ensures Fresh(sanitize, ask).totalChars == Total(Fresh(sanitize, ask).snippets)
    ensures WithinBudget(Fresh(sanitize, ask), ask.maxChars)
  {
    hide Assemble, FreeAssemble, Total;
    BudgetedIsClipped(ask.maxChars, sanitize, ask.stages);
  }

  /** A fresh pack, entry by entry: its files in order of first appearance, the symbols and time asked
      with, and a note for the snippet that was cut, if any. */
  lemma FreshEntries(sanitize: string -> string, ask: Ask)
    ensures var pack := Fresh(sanitize, ask);
            && !Repeats(pack.filesIncluded) && InFirstOrder(pack.filesIncluded, Paths(pack.snippets))
            && pack.symbols == ask.symbols && pack.fingerprint == ask.fingerprint && pack.generatedAt == ask.generatedAt
            && !pack.cached
            && var free := FreeAssemble(sanitize, EMPTY, ask.stages).snippets;
               if pack.snippets <= free then pack.notes == []
               else
                 pack.snippets != [] &&
                 pack.notes == ["Truncated snippet for " + pack.snippets[|pack.snippets| - 1].path + "."]
  {
    hide Assemble, FreeAssemble, Clip, Shortened, TextOf;
    FilesInFirstOrder(ask.maxChars, sanitize, ask.stages);
    BudgetedIsClipped(ask.maxChars, sanitize, ask.stages);
    var st, free := Assemble(ask.maxChars, sanitize, EMPTY, ask.stages),
        FreeAssemble(sanitize, EMPTY, ask.stages).snippets;
    if st.cuts != [] {
      var k := |st.snippets|;
      assert st.cuts[1..] == [] && CutNotes(st.cuts[1..]) == [];
      assert CutNotes(st.cuts) == ["Truncated snippet for " + st.cuts[0] + "."];
    }
  }

  /** What is missing from a stored object reads as empty, and what it is stored under as its fingerprint. */
  lemma LoadDefaults(fingerprint: string)
    ensures Load(Stored(None, None, None, None, None, None, None), fingerprint) ==
            Some(Pack([], [], [], 0, [], fingerprint, true, ""))
    ensures LoadSnippets([StoredSnippet(None, None, None, None, None)]) == None
    ensures LoadSnippets([StoredSnippet(Some("p"), None, None, None, None)]) == Some([Snippet("p", None, None, "", "")])
  {
    var bare, named := StoredSnippet(None, None, None, None, None), StoredSnippet(Some("p"), None, None, None, None);
    assert [bare][1..] == [] && [named][1..] == [] && LoadSnippets([]) == Some([]);
    assert [Snippet("p", None, None, "", "")] + [] == [Snippet("p", None, None, "", "")];
  }

  /** An answer keeps within the budget asked for iff it is fresh, or what the first request stored is
      small enough. */
  lemma AnswerFitsIff(sanitize: string -> string, asks: seq<Ask>, ask: Ask)
    ensures var answer, first := Respond(sanitize, Served(sanitize, asks), ask).0, FirstAsk(asks, ask.fingerprint);
            && answer.Some?
            && (WithinBudget(answer.value, ask.maxChars) <==>
                first.None? || Fresh(sanitize, asks[first.value]).totalChars <= Max(0, ask.maxChars))
  {
    hide Fresh, Respond, Served, Total;
    AnswerIsFirst(sanitize, asks, ask);
    FreshTotals(sanitize, ask);
    var first := FirstAsk(asks, ask.fingerprint);
    if first.Some? { FreshTotals(sanitize, asks[first.value]); }
  }

  /** A second request with a smaller budget is answered with more than it asked for. */
  lemma CachedPackOvershoots(path: string, fingerprint: string)
    ensures var snippet := Snippet(path, None, None, "abc", "");
            var stages: seq<Stage> := [(files: seq<string>) => [snippet]];
            var generous, strict := Ask(fingerprint, 3, stages, [], ""), Ask(fingerprint, 1, stages, [], "");
            var answer := Respond((s: string) => s, Served((s: string) => s, [generous]), strict).0;
            answer.Some? && Total(answer.value.snippets) == 3 && !WithinBudget(answer.value, strict.maxChars)
  {
    var sanitize := (s: string) => s;
    var snippet := Snippet(path, None, None, "abc", "");
    var stages: seq<Stage> := [(files: seq<string>) => [snippet]];
    var generous, strict := Ask(fingerprint, 3, stages, [], ""), Ask(fingerprint, 1, stages, [], "");
    AnswerFitsIff(sanitize, [generous], strict);
    AnswerIsFirst(sanitize, [generous], strict);
    var st := Add(3, sanitize, EMPTY, snippet);
    assert st.snippets == [snippet] && st.total == 3;
    assert AddAll(3, sanitize, EMPTY, [snippet]) == st;
    assert Assemble(3, sanitize, EMPTY, stages) == st;
    assert Fresh(sanitize, generous).snippets == [snippet];
    assert Total([snippet]) == 3;
  }
}
