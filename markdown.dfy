/**
 * The markdown helpers (src/utils/markdown.ts): resolving a fence's language
 * name through the alias table, collecting the languages of a message's code
 * fences, escaping HTML, the code-block renderer's choice between highlighted
 * and escaped text, loading highlighter languages on demand, and the bounded
 * insertion-ordered render cache. The markdown parser, the highlighter and the
 * dynamic module imports are not part of this model: they are parameters.
 */
module Markdown {
  import opened Wrappers
  import opened Strings

  /** The keys of `languageLoaders`: the languages that have a highlighter module. */
  const LoaderNames: set<string> := {
    "javascript", "typescript", "python", "bash", "json", "yaml", "markdown", "css", "scss", "xml",
    "sql", "go", "rust", "java", "c", "cpp", "ruby", "diff", "plaintext", "swift",
    "kotlin", "scala", "php", "perl", "r", "lua", "haskell", "elixir", "erlang", "clojure",
    "lisp", "scheme", "ocaml", "fsharp", "csharp", "objectivec", "dockerfile", "nginx", "apache", "makefile",
    "cmake", "gradle", "groovy", "ini", "properties", "graphql", "protobuf", "thrift", "latex", "matlab",
    "wasm", "nix", "powershell", "vbnet", "dart", "vim", "http"
  }

  /** `aliases`: the canonical name an alternative fence name stands for, as an own entry of the table. */
  function AliasOf(key: string): Option<string> {
    match key
    case "js" => Some("javascript")
    case "jsx" => Some("javascript")
    case "ts" => Some("typescript")
    case "tsx" => Some("typescript")
    case "py" => Some("python")
    case "sh" => Some("bash")
    case "shell" => Some("bash")
    case "zsh" => Some("bash")
    case "yml" => Some("yaml")
    case "md" => Some("markdown")
    case "html" => Some("xml")
    case "htm" => Some("xml")
    case "xhtml" => Some("xml")
    case "svg" => Some("xml")
    case "rs" => Some("rust")
    case "golang" => Some("go")
    case "rb" => Some("ruby")
    case "pl" => Some("perl")
    case "hs" => Some("haskell")
    case "ex" => Some("elixir")
    case "exs" => Some("elixir")
    case "erl" => Some("erlang")
    case "clj" => Some("clojure")
    case "ml" => Some("ocaml")
    case "fs" => Some("fsharp")
    case "cs" => Some("csharp")
    case "m" => Some("objectivec")
    case "mm" => Some("objectivec")
    case "objc" => Some("objectivec")
    case "make" => Some("makefile")
    case "tex" => Some("latex")
    case "ps1" => Some("powershell")
    case "psm1" => Some("powershell")
    case "txt" => Some("plaintext")
    case "text" => Some("plaintext")
    case "toml" => Some("ini")
    case _ => None
  }

  /** The canonical names the aliases stand for. */
  const AliasTargetNames: set<string> := {
    "javascript", "typescript", "python", "bash", "yaml", "markdown", "xml", "rust", "go", "ruby", "perl", "haskell",
    "elixir", "erlang", "clojure", "ocaml", "fsharp", "csharp", "objectivec", "makefile", "latex", "powershell", "plaintext", "ini"
  }

  lemma AliasTargetsListed()
    ensures forall k :: AliasOf(k).Some? ==> AliasOf(k).value in AliasTargetNames
  {
  }

  lemma AliasTargetsHaveLoaders()
    ensures forall t :: t in AliasTargetNames ==> t in LoaderNames
  {
  }

  lemma AliasTargetsAreNotAliases()
    ensures forall t :: t in AliasTargetNames ==> AliasOf(t).None?
  {
  }

  lemma AliasTargetsLowerCase()
    ensures forall t :: t in AliasTargetNames ==> IsLowerCase(t)
  {
  }

  /** Every alias names a language with a loader, in lower case, that is not itself an alias. */
  lemma AliasTargets(k: string)
    requires AliasOf(k).Some?
    ensures var t := AliasOf(k).value; t in LoaderNames && AliasOf(t).None? && IsLowerCase(t)
  {
    AliasTargetsListed();
    AliasTargetsHaveLoaders();
    AliasTargetsAreNotAliases();
    AliasTargetsLowerCase();
  }

  /**
   * `resolveLanguage`: the lower-cased name, or the language it is an alias of.
   * The alias table is looked up by its own entries only; see `ResolveLanguageAsWritten`.
   */
  function ResolveLanguage(lang: string): (r: string)
    ensures IsLowerCase(r) && AliasOf(r).None?
    ensures r == ToLower(lang) || (AliasOf(ToLower(lang)) == Some(r) && r in LoaderNames)
  {
    ToLowerFacts(lang);
    var lower := ToLower(lang);
    match AliasOf(lower)
    case Some(target) => AliasTargets(lower); target
    case None => lower
  }

  /** Resolving twice is resolving once, so `loadLanguage` may resolve an already resolved name. */
  lemma ResolveIdempotent(lang: string)
    ensures ResolveLanguage(ResolveLanguage(lang)) == ResolveLanguage(lang)
  {
    ToLowerFacts(ResolveLanguage(lang));
  }

  /** Resolution ignores case; and an alias resolves to a language that has a loader. */
  lemma ResolveIgnoresCase(lang: string)
    ensures ResolveLanguage(ToLower(lang)) == ResolveLanguage(lang)
    ensures AliasOf(ToLower(lang)).Some? ==> ResolveLanguage(lang) in LoaderNames
  {
    ToLowerFacts(lang);
  }

  // ----- The lookup as written: inherited properties of a plain object -----

  /** The properties every plain object inherits from `Object.prototype`. */
  const InheritedNames: set<string> := {
    "constructor", "__proto__", "__defineGetter__", "__defineSetter__", "__lookupGetter__", "__lookupSetter__",
    "hasOwnProperty", "isPrototypeOf", "propertyIsEnumerable", "toLocaleString", "toString", "valueOf"
  }

  /** No inherited name is an own entry of the alias table. */
  lemma InheritedNamesNotAliases()
    ensures forall k :: k in InheritedNames ==> AliasOf(k).None?
  {
  }

  /** What `aliases[key]` yields: one of the table's strings, or an inherited function or object. */
  datatype Property = Own(text: string) | Inherited(name: string)

  /** `aliases[key]` on the object literal: an own entry, else an inherited member, else `undefined`. */
  function AliasLookupAsWritten(key: string): (p: Option<Property>)
    ensures p.Some? <==> AliasOf(key).Some? || key in InheritedNames
    ensures AliasOf(key).Some? ==> p == Some(Own(AliasOf(key).value))
  {
    match AliasOf(key)
    case Some(target) => Some(Own(target))
    case None => if key in InheritedNames then Some(Inherited(key)) else None
  }

  /** `aliases[lower] ?? lower` as written: an inherited member is not nullish, so it is returned. */
  function ResolveLanguageAsWritten(lang: string): (p: Property)
    ensures p.Inherited? <==> ToLower(lang) in InheritedNames
  {
    InheritedNamesNotAliases();
    match AliasLookupAsWritten(ToLower(lang))
    case Some(v) => v
    case None => Own(ToLower(lang))
  }

  /** Away from the inherited names the lookup as written and the own-entry lookup agree. */
  lemma ResolveAsWrittenAgrees(lang: string)
    ensures ToLower(lang) !in InheritedNames ==> ResolveLanguageAsWritten(lang) == Own(ResolveLanguage(lang))
  {
  }

  /** "constructor" is already lower case. */
  lemma ConstructorName()
    ensures ToLower("constructor") == "constructor"
  {
    assert IsLowerCase("constructor");
    ToLowerFacts("constructor");
  }

  /** "__proto__" is already lower case. */
  lemma ProtoName()
    ensures ToLower("__proto__") == "__proto__"
  {
    assert IsLowerCase("__proto__");
    ToLowerFacts("__proto__");
  }

  /**
   * For "constructor" and "__proto__" the lookup as written yields a function or
   * an object instead of a string; the own-entry lookup yields the name itself.
   */
  lemma InheritedResolutions()
    ensures ResolveLanguageAsWritten("constructor").Inherited? && ResolveLanguageAsWritten("__proto__").Inherited?
    ensures ResolveLanguage("constructor") == "constructor" && ResolveLanguage("__proto__") == "__proto__"
  {
    ConstructorName();
    ProtoName();
    InheritedNamesNotAliases();
  }

  // ----- Code fences -----

  /** A character `\w` matches. */
  predicate IsWordChar(c: char) {
    'a' <= c <= 'z' || 'A' <= c <= 'Z' || '0' <= c <= '9' || c == '_'
  }

  /** A non-empty run of word characters. */
  predicate IsWord(w: string) {
    |w| > 0 && forall k :: 0 <= k < |w| ==> IsWordChar(w[k])
  }

  /** The end of the longest run of word characters starting at `j` (the greedy `\w+`). */
  function WordEnd(s: string, j: nat): (e: nat)
    requires j <= |s|
    ensures j <= e <= |s|
    ensures forall k :: j <= k < e ==> IsWordChar(s[k])
    ensures e == |s| || !IsWordChar(s[e])
    decreases |s| - j
  {
    if j < |s| && IsWordChar(s[j]) then WordEnd(s, j + 1) else j
  }

  /** The pattern /```(\w+)/ matches at index `i`. */
  predicate FenceAt(s: string, i: nat) {
    i + 3 < |s| && s[i] == '`' && s[i + 1] == '`' && s[i + 2] == '`' && IsWordChar(s[i + 3])
  }

  /**
   * The captured names of the successive matches of /```(\w+)/g from index
   * `i`: the leftmost match, then the search goes on where it ended.
   */
  function FenceWords(s: string, i: nat): (ws: seq<string>)
    requires i <= |s|
    ensures forall w :: w in ws ==> IsWord(w)
    decreases |s| - i
  {
    if i == |s| then []
    else if FenceAt(s, i) then
      var e := WordEnd(s, i + 3);
      [s[i + 3..e]] + FenceWords(s, e)
    else FenceWords(s, i + 1)
  }

  /** Adds `x` to an insertion-ordered set, as a JS `Set` does. */
  function AddNew(acc: seq<string>, x: string): (r: seq<string>)
    ensures x in r && (x in acc ==> r == acc) && (x !in acc ==> r == acc + [x])
  {
    if x in acc then acc else acc + [x]
  }

  /** Adds the resolved name of each word, in order. */
  function Collect(acc: seq<string>, ws: seq<string>): seq<string>
    decreases |ws|
  {
    if ws == [] then acc else Collect(AddNew(acc, ResolveLanguage(ws[0])), ws[1..])
  }

  /** The value `extractLanguages(markdown)` returns. */
  function ExtractedLanguages(markdown: string): seq<string> {
    Collect([], FenceWords(markdown, 0))
  }

  predicate Distinct(s: seq<string>) {
    forall i, j :: 0 <= i < j < |s| ==> s[i] != s[j]
  }

  /**
   * Collecting keeps what was collected in its place, keeps the names
   * distinct, and adds exactly the resolved names of the words.
   */
  lemma {:induction false} CollectSpec(acc: seq<string>, ws: seq<string>)
    ensures var r := Collect(acc, ws);
      && |acc| <= |r| && r[..|acc|] == acc
      && (Distinct(acc) ==> Distinct(r))
      && forall x :: x in r <==> x in acc || exists w :: w in ws && ResolveLanguage(w) == x
    decreases |ws|
  {
    if ws != [] {
      var a := AddNew(acc, ResolveLanguage(ws[0]));
      CollectSpec(a, ws[1..]);
      var r := Collect(acc, ws);
      assert r[..|acc|] == acc by {
        assert r[..|a|][..|acc|] == acc;
      }
      forall x ensures x in r <==> x in acc || exists w :: w in ws && ResolveLanguage(w) == x {
        if x in r && x !in acc && x != ResolveLanguage(ws[0]) {
          var w :| w in ws[1..] && ResolveLanguage(w) == x;
          assert w in ws;
        }
        if x !in acc && (exists w :: w in ws && ResolveLanguage(w) == x) {
          var w :| w in ws && ResolveLanguage(w) == x;
          if w != ws[0] {
            assert w in ws[1..];
          }
        }
      }
    }
  }

  /** Collecting over two runs of words in turn is collecting over both. */
  lemma {:induction false} CollectAppend(acc: seq<string>, ws: seq<string>, vs: seq<string>)
    ensures Collect(acc, ws + vs) == Collect(Collect(acc, ws), vs)
    decreases |ws|
  {
    if ws == [] {
      assert ws + vs == vs;
    } else {
      assert (ws + vs)[0] == ws[0];
      assert (ws + vs)[1..] == ws[1..] + vs;
      CollectAppend(AddNew(acc, ResolveLanguage(ws[0])), ws[1..], vs);
    }
  }

  /**
   * `extractLanguages` gives distinct lower-case names, each the resolution of
   * some fence's name, and every fence's resolved name among them.
   */
  lemma ExtractedLanguagesSpec(markdown: string)
    ensures var r := ExtractedLanguages(markdown);
      && Distinct(r)
      && (forall x :: x in r <==> exists w :: w in FenceWords(markdown, 0) && ResolveLanguage(w) == x)
      && (forall x :: x in r ==> IsLowerCase(x))
  {
    CollectSpec([], FenceWords(markdown, 0));
  }

  /**
   * The names come in order of first occurrence: those of the first `k` fences
   * are a prefix of the result.
   */
  lemma ExtractedLanguagesOrder(markdown: string, k: nat)
    requires k <= |FenceWords(markdown, 0)|
    ensures var p := Collect([], FenceWords(markdown, 0)[..k]);
      |p| <= |ExtractedLanguages(markdown)| && ExtractedLanguages(markdown)[..|p|] == p
  {
    var ws := FenceWords(markdown, 0);
    assert ws == ws[..k] + ws[k..];
    CollectAppend([], ws[..k], ws[k..]);
    CollectSpec(Collect([], ws[..k]), ws[k..]);
  }

  /** `extractLanguages`: the regular-expression match loop filling a `Set`. */
  method ExtractLanguages(markdown: string) returns (languages: seq<string>)
    ensures languages == ExtractedLanguages(markdown)
  {
    languages := [];
    var i := 0;
    while i < |markdown|
      invariant 0 <= i <= |markdown|
      invariant Collect(languages, FenceWords(markdown, i)) == ExtractedLanguages(markdown)
      decreases |markdown| - i
    {
      if i + 3 < |markdown| && markdown[i] == '`' && markdown[i + 1] == '`' && markdown[i + 2] == '`'
         && IsWordChar(markdown[i + 3])
      {
        var e := i + 4;
        while e < |markdown| && IsWordChar(markdown[e])
          invariant i + 4 <= e <= |markdown|
          invariant WordEnd(markdown, e) == WordEnd(markdown, i + 3)
          decreases |markdown| - e
        {
          e := e + 1;
        }
        var lang := markdown[i + 3..e];
        languages := AddNew(languages, ResolveLanguage(lang));
        i := e;
      } else {
        i := i + 1;
      }
    }
  }

  /**
   * `extractLanguages` as written: the value `aliases[lower] ?? lower` of each
   * fence word, each kept once, in order of first appearance. The inherited
   * members are single objects, so a repeated one is kept once too.
   */
  function CollectAsWritten(acc: seq<Property>, ws: seq<string>): (r: seq<Property>)
    ensures |acc| <= |r| && r[..|acc|] == acc
    decreases |ws|
  {
    if ws == [] then acc
    else
      var p := ResolveLanguageAsWritten(ws[0]);
      CollectAsWritten(if p in acc then acc else acc + [p], ws[1..])
  }

  /** The collected values are those already there and the resolution of every word. */
  lemma {:induction false} CollectAsWrittenMembers(acc: seq<Property>, ws: seq<string>)
    ensures forall p :: p in CollectAsWritten(acc, ws) <==> p in acc || exists w :: w in ws && ResolveLanguageAsWritten(w) == p
    decreases |ws|
  {
    if ws != [] {
      var p := ResolveLanguageAsWritten(ws[0]);
      var acc' := if p in acc then acc else acc + [p];
      CollectAsWrittenMembers(acc', ws[1..]);
      forall q ensures q in CollectAsWritten(acc, ws) <==> q in acc || exists w :: w in ws && ResolveLanguageAsWritten(w) == q {
        if q in acc' && q !in acc {
          assert ws[0] in ws;
        }
        if q !in acc && (exists w :: w in ws && ResolveLanguageAsWritten(w) == q) {
          var w :| w in ws && ResolveLanguageAsWritten(w) == q;
          if w != ws[0] {
            assert w in ws[1..];
          }
        }
        forall w | w in ws[1..] ensures w in ws {
        }
      }
    }
  }

  /** How `Promise.all(languages.map(loadLanguage))` settles. */
  datatype LoadOutcome = AllSettled | Rejected

  /**
   * `loadLanguage` on each collected value as written: it resolves the value
   * again, and `toLowerCase` on an inherited function or object throws, so its
   * promise rejects; one rejection rejects the whole `Promise.all`.
   */
  function LoadAllAsWritten(collected: seq<Property>): (r: LoadOutcome)
    ensures r == Rejected <==> exists i :: 0 <= i < |collected| && collected[i].Inherited?
  {
    if collected == [] then AllSettled
    else if collected[0].Inherited? then Rejected
    else
      var r := LoadAllAsWritten(collected[1..]);
      assert forall i :: 1 <= i < |collected| ==> collected[i] == collected[1..][i - 1];
      r
  }

  /** The loads that `renderMarkdown` awaits for a message, as written. */
  function LoadsAsWritten(markdown: string): LoadOutcome {
    LoadAllAsWritten(CollectAsWritten([], FenceWords(markdown, 0)))
  }

  /**
   * As written, `renderMarkdown` rejects exactly for the messages with a fence
   * whose word is an inherited name in lower case ("constructor", "__proto__").
   */
  lemma LoadsAsWrittenSpec(markdown: string)
    ensures LoadsAsWritten(markdown) == Rejected <==> exists w :: w in FenceWords(markdown, 0) && ToLower(w) in InheritedNames
  {
    var ws := FenceWords(markdown, 0);
    var c := CollectAsWritten([], ws);
    CollectAsWrittenMembers([], ws);
    assert LoadsAsWritten(markdown) == LoadAllAsWritten(c);
    if LoadsAsWritten(markdown) == Rejected {
      var i :| 0 <= i < |c| && c[i].Inherited?;
      assert c[i] in c;
      var w :| w in ws && ResolveLanguageAsWritten(w) == c[i];
      assert ToLower(w) in InheritedNames;
    }
    if exists w :: w in ws && ToLower(w) in InheritedNames {
      var w :| w in ws && ToLower(w) in InheritedNames;
      assert ResolveLanguageAsWritten(w).Inherited? && ResolveLanguageAsWritten(w) in c;
      var k :| 0 <= k < |c| && c[k] == ResolveLanguageAsWritten(w);
      assert c[k].Inherited?;
    }
  }

  /** A run of word characters up to the end is taken whole. */
  lemma {:induction false} WordEndOfWord(s: string, j: nat)
    requires j <= |s| && forall k :: j <= k < |s| ==> IsWordChar(s[k])
    ensures WordEnd(s, j) == |s|
    decreases |s| - j
  {
    if j < |s| {
      WordEndOfWord(s, j + 1);
    }
  }

  /** The only fence of "```constructor" is named "constructor". */
  lemma ConstructorFenceWords()
    ensures FenceWords("```constructor", 0) == ["constructor"]
  {
    var s := "```constructor";
    assert FenceAt(s, 0);
    WordEndOfWord(s, 3);
    assert s[3..14] == "constructor";
  }

  /** A concrete message that the lookup as written fails to render. */
  lemma ConstructorFenceRejects()
    ensures LoadsAsWritten("```constructor") == Rejected
  {
    ConstructorFenceWords();
    ConstructorName();
    LoadsAsWrittenSpec("```constructor");
    assert "constructor" in FenceWords("```constructor", 0);
  }

  /** With the own-entry lookup the same message yields the string "constructor". */
  lemma ConstructorFenceResolved()
    ensures ExtractedLanguages("```constructor") == ["constructor"]
  {
    ConstructorFenceWords();
    InheritedResolutions();
    assert Collect([], ["constructor"]) == Collect(["constructor"], []);
  }

  // ----- Escaping -----

  /** `text.replace(/c/g, rep)`. */
  function ReplaceChar(s: string, c: char, rep: string): string {
    if s == [] then [] else (if s[0] == c then rep else [s[0]]) + ReplaceChar(s[1..], c, rep)
  }

  /** `escapeHtml`: the four replacements in the source's order, '&' first. */
  function EscapeHtml(text: string): string {
    ReplaceChar(ReplaceChar(ReplaceChar(ReplaceChar(text, '&', "&amp;"), '<', "&lt;"), '>', "&gt;"), '"', "&quot;")
  }

  /** The entity one character escapes to. */
  function EscapeChar(c: char): string {
    if c == '&' then "&amp;" else if c == '<' then "&lt;" else if c == '>' then "&gt;" else if c == '"' then "&quot;" else [c]
  }

  /** Escaping every character once, each on its own. */
  function EscapeEach(s: string): string {
    if s == [] then [] else EscapeChar(s[0]) + EscapeEach(s[1..])
  }

  lemma {:induction false} ReplaceCharAppend(a: string, b: string, c: char, rep: string)
    ensures ReplaceChar(a + b, c, rep) == ReplaceChar(a, c, rep) + ReplaceChar(b, c, rep)
  {
    if a == [] {
      assert a + b == b;
    } else {
      assert (a + b)[0] == a[0];
      assert (a + b)[1..] == a[1..] + b;
      ReplaceCharAppend(a[1..], b, c, rep);
    }
  }

  lemma EscapeHtmlAppend(a: string, b: string)
    ensures EscapeHtml(a + b) == EscapeHtml(a) + EscapeHtml(b)
  {
    ReplaceCharAppend(a, b, '&', "&amp;");
    var a1, b1 := ReplaceChar(a, '&', "&amp;"), ReplaceChar(b, '&', "&amp;");
    ReplaceCharAppend(a1, b1, '<', "&lt;");
    var a2, b2 := ReplaceChar(a1, '<', "&lt;"), ReplaceChar(b1, '<', "&lt;");
    ReplaceCharAppend(a2, b2, '>', "&gt;");
    var a3, b3 := ReplaceChar(a2, '>', "&gt;"), ReplaceChar(b2, '>', "&gt;");
    ReplaceCharAppend(a3, b3, '"', "&quot;");
  }

  /** Replacing a character that does not occur changes nothing. */
  lemma {:induction false} ReplaceAbsent(s: string, c: char, rep: string)
    requires c !in s
    ensures ReplaceChar(s, c, rep) == s
  {
    if s != [] {
      assert s[0] != c;
      ReplaceAbsent(s[1..], c, rep);
    }
  }

  lemma ReplaceOne(c: char, d: char, rep: string)
    ensures ReplaceChar([c], d, rep) == if c == d then rep else [c]
  {
    assert [c][1..] == [];
  }

  lemma EscapeHtmlChar(c: char)
    ensures EscapeHtml([c]) == EscapeChar(c)
  {
    if c == '&' {
      EscapeAmp(c);
    } else if c == '<' {
      EscapeLt(c);
    } else if c == '>' {
      EscapeGt(c);
    } else {
      EscapeOther(c);
    }
  }

  /** Each entity holds none of the characters replaced after it. */
  lemma EntitiesFree()
    ensures '<' !in "&amp;" && '>' !in "&amp;" && '"' !in "&amp;"
    ensures '>' !in "&lt;" && '"' !in "&lt;" && '"' !in "&gt;"
  {
  }

  lemma EscapeAmp(c: char)
    requires c == '&'
    ensures EscapeHtml([c]) == "&amp;"
  {
    EntitiesFree();
    ReplaceOne(c, '&', "&amp;");
    var s := ReplaceChar([c], '&', "&amp;");
    ReplaceAbsent(s, '<', "&lt;");
    ReplaceAbsent(s, '>', "&gt;");
    ReplaceAbsent(s, '"', "&quot;");
  }

  lemma EscapeLt(c: char)
    requires c == '<'
    ensures EscapeHtml([c]) == "&lt;"
  {
    EntitiesFree();
    ReplaceOne(c, '&', "&amp;");
    ReplaceOne(c, '<', "&lt;");
    var s := ReplaceChar([c], '<', "&lt;");
    ReplaceAbsent(s, '>', "&gt;");
    ReplaceAbsent(s, '"', "&quot;");
  }

  lemma EscapeGt(c: char)
    requires c == '>'
    ensures EscapeHtml([c]) == "&gt;"
  {
    EntitiesFree();
    ReplaceOne(c, '&', "&amp;");
    ReplaceOne(c, '<', "&lt;");
    ReplaceOne(c, '>', "&gt;");
    var s := ReplaceChar([c], '>', "&gt;");
    ReplaceAbsent(s, '"', "&quot;");
  }

  lemma EscapeOther(c: char)
    requires c != '&' && c != '<' && c != '>'
    ensures EscapeHtml([c]) == EscapeChar(c)
  {
    ReplaceOne(c, '&', "&amp;");
    ReplaceOne(c, '<', "&lt;");
    ReplaceOne(c, '>', "&gt;");
    ReplaceOne(c, '"', "&quot;");
  }

  /**
   * Because '&' is replaced first, the entities the later replacements produce
   * are not escaped again: the chain equals escaping each character once.
   */
  lemma {:induction false} EscapeHtmlOnePass(s: string)
    ensures EscapeHtml(s) == EscapeEach(s)
  {
    if s != [] {
      assert s == [s[0]] + s[1..];
      EscapeHtmlAppend([s[0]], s[1..]);
      EscapeHtmlChar(s[0]);
      EscapeHtmlOnePass(s[1..]);
    }
  }

  /** Escaped text holds no '<', '>' or '"'. */
  lemma EscapeHtmlNoMarkup(s: string)
    ensures var r := EscapeHtml(s); '<' !in r && '>' !in r && '"' !in r
  {
    EscapeHtmlOnePass(s);
    EscapeEachNoMarkup(s);
  }

  lemma {:induction false} EscapeEachNoMarkup(s: string)
    ensures var r := EscapeEach(s); '<' !in r && '>' !in r && '"' !in r
  {
    if s != [] {
      EscapeEachNoMarkup(s[1..]);
    }
  }

  /** Reading the four entities back, as an HTML parser does in text content. */
  function UnescapeHtml(t: string): string
    decreases |t|
  {
    if t == [] then []
    else if StartsWith(t, "&amp;") then "&" + UnescapeHtml(t[5..])
    else if StartsWith(t, "&lt;") then "<" + UnescapeHtml(t[4..])
    else if StartsWith(t, "&gt;") then ">" + UnescapeHtml(t[4..])
    else if StartsWith(t, "&quot;") then "\"" + UnescapeHtml(t[6..])
    else [t[0]] + UnescapeHtml(t[1..])
  }

  lemma UnescapeAmp(rest: string)
    ensures UnescapeHtml("&amp;" + rest) == "&" + UnescapeHtml(rest)
  {
    var t := "&amp;" + rest;
    assert t[..5] == "&amp;" && t[5..] == rest;
  }

  lemma UnescapeLt(rest: string)
    ensures UnescapeHtml("&lt;" + rest) == "<" + UnescapeHtml(rest)
  {
    var t := "&lt;" + rest;
    assert t[..4] == "&lt;" && t[4..] == rest;
    assert t[1] == 'l';
  }

  lemma UnescapeGt(rest: string)
    ensures UnescapeHtml("&gt;" + rest) == ">" + UnescapeHtml(rest)
  {
    var t := "&gt;" + rest;
    assert t[..4] == "&gt;" && t[4..] == rest;
    assert t[1] == 'g';
  }

  lemma UnescapeQuot(rest: string)
    ensures UnescapeHtml("&quot;" + rest) == "\"" + UnescapeHtml(rest)
  {
    var t := "&quot;" + rest;
    assert t[..6] == "&quot;" && t[6..] == rest;
    assert t[1] == 'q';
  }

  lemma UnescapeEscapeChar(c: char, rest: string)
    ensures UnescapeHtml(EscapeChar(c) + rest) == [c] + UnescapeHtml(rest)
  {
    if c == '&' {
      UnescapeAmp(rest);
    } else if c == '<' {
      UnescapeLt(rest);
    } else if c == '>' {
      UnescapeGt(rest);
    } else if c == '"' {
      UnescapeQuot(rest);
    } else {
      UnescapePlain(c, rest);
    }
  }

  /** A character that starts no entity reads back as itself. */
  lemma UnescapePlain(c: char, rest: string)
    requires c != '&'
    ensures UnescapeHtml([c] + rest) == [c] + UnescapeHtml(rest)
  {
    var t := [c] + rest;
    assert t[0] == c && t[1..] == rest;
    assert !StartsWith(t, "&amp;") && !StartsWith(t, "&lt;") && !StartsWith(t, "&gt;") && !StartsWith(t, "&quot;") by {
      assert "&amp;"[0] == '&' && "&lt;"[0] == '&' && "&gt;"[0] == '&' && "&quot;"[0] == '&';
    }
  }

  /** Escaping loses nothing: the escaped text reads back as the original. */
  lemma {:induction false} EscapeRoundTrip(s: string)
    ensures UnescapeHtml(EscapeHtml(s)) == s
  {
    EscapeHtmlOnePass(s);
    EscapeEachRoundTrip(s);
  }

  lemma {:induction false} EscapeEachRoundTrip(s: string)
    ensures UnescapeHtml(EscapeEach(s)) == s
  {
    if s != [] {
      UnescapeEscapeChar(s[0], EscapeEach(s[1..]));
      EscapeEachRoundTrip(s[1..]);
      assert s == [s[0]] + s[1..];
    }
  }

  // ----- The code-block renderer -----

  /** `lang ? resolveLanguage(lang) : ''`. */
  function CodeLanguage(lang: Option<string>): (language: string)
    ensures lang.None? || lang.value == "" ==> language == ""
    ensures lang.Some? && lang.value != "" ==> language == ResolveLanguage(lang.value)
  {
    if lang.Some? && lang.value != "" then ResolveLanguage(lang.value) else ""
  }

  function OpenTag(language: string): string {
    "<pre><code class=\"hljs language-" + language + "\">"
  }

  const CloseTag: string := "</code></pre>"

  /**
   * The `code` renderer: highlighted by `highlight` when the language is named
   * and loaded, escaped otherwise, always inside a `pre`/`code` pair.
   */
  function RenderCode(text: string, lang: Option<string>, loaded: set<string>,
                      highlight: (string, string) -> string): string
  {
    var language := CodeLanguage(lang);
    var highlighted := if language != "" && language in loaded then highlight(text, language) else EscapeHtml(text);
    OpenTag(language) + highlighted + CloseTag
  }

  /**
   * A rendered block is wrapped in the tags for its resolved language; its body
   * is the highlighter's output exactly when the language is loaded, and
   * otherwise holds no markup and reads back as the code's text.
   */
  lemma RenderCodeSpec(text: string, lang: Option<string>, loaded: set<string>,
                       highlight: (string, string) -> string)
    ensures var html := RenderCode(text, lang, loaded, highlight);
      var language := CodeLanguage(lang);
      && StartsWith(html, OpenTag(language)) && EndsWith(html, CloseTag)
      && |OpenTag(language)| + |CloseTag| <= |html|
      && var body := html[|OpenTag(language)|..|html| - |CloseTag|];
        && (language != "" && language in loaded ==> body == highlight(text, language))
        && (language == "" || language !in loaded ==>
              UnescapeHtml(body) == text && '<' !in body && '>' !in body && '"' !in body)
  {
    var html := RenderCode(text, lang, loaded, highlight);
    var language := CodeLanguage(lang);
    var highlighted := if language != "" && language in loaded then highlight(text, language) else EscapeHtml(text);
    assert html == OpenTag(language) + highlighted + CloseTag;
    assert html[..|OpenTag(language)|] == OpenTag(language);
    assert html[|html| - |CloseTag|..] == CloseTag;
    assert html[|OpenTag(language)|..|html| - |CloseTag|] == highlighted;
    EscapeRoundTrip(text);
    EscapeHtmlNoMarkup(text);
  }
  // ----- Loading languages and the render cache -----

  /**
   * The loaded set after the sequential `loadLanguage` calls for `langs`:
   * a name with a loader is added when its import succeeds.
   */
  function LoadedAfter(loaded: set<string>, langs: seq<string>, imports: string -> bool): set<string>
    decreases |langs|
  {
    if langs == [] then loaded
    else
      var r := ResolveLanguage(langs[0]);
      LoadedAfter(if r !in loaded && r in LoaderNames && imports(r) then loaded + {r} else loaded, langs[1..], imports)
  }

  /** Loading adds exactly the resolved names that have a loader and whose import succeeds, and never a name without a loader. */
  lemma {:induction false} LoadedAfterSpec(loaded: set<string>, langs: seq<string>, imports: string -> bool)
    ensures forall x :: x in LoadedAfter(loaded, langs, imports) <==>
      x in loaded || (x in LoaderNames && imports(x) && exists l :: l in langs && ResolveLanguage(l) == x)
    decreases |langs|
  {
    if langs != [] {
      var r := ResolveLanguage(langs[0]);
      var next := if r !in loaded && r in LoaderNames && imports(r) then loaded + {r} else loaded;
      LoadedAfterSpec(next, langs[1..], imports);
      forall x | x !in loaded && x in LoaderNames && imports(x) && exists l :: l in langs && ResolveLanguage(l) == x
        ensures x in LoadedAfter(loaded, langs, imports)
      {
        var l :| l in langs && ResolveLanguage(l) == x;
        if l != langs[0] {
          assert l in langs[1..];
        }
      }
      forall x | x in LoadedAfter(loaded, langs, imports) && x !in loaded
        ensures exists l :: l in langs && ResolveLanguage(l) == x
      {
        if x != r {
          var l :| l in langs[1..] && ResolveLanguage(l) == x;
          assert l in langs;
        }
      }
    }
  }

  /** The extracted names are resolved already. */
  lemma ExtractedAreResolved(markdown: string)
    ensures forall l :: l in ExtractedLanguages(markdown) ==> ResolveLanguage(l) == l
  {
    ExtractedLanguagesSpec(markdown);
    forall l | l in ExtractedLanguages(markdown) ensures ResolveLanguage(l) == l {
      var w :| w in FenceWords(markdown, 0) && ResolveLanguage(w) == l;
      ResolveIdempotent(w);
    }
  }

  /**
   * A render loads exactly the extracted languages that have a loader and
   * import successfully: `loadLanguage` resolving them again changes none.
   */
  lemma FenceLanguagesLoaded(loaded: set<string>, markdown: string, imports: string -> bool)
    ensures forall x :: x in LoadedAfter(loaded, ExtractedLanguages(markdown), imports) <==>
      x in loaded || (x in LoaderNames && imports(x) && x in ExtractedLanguages(markdown))
  {
    var langs := ExtractedLanguages(markdown);
    LoadedAfterSpec(loaded, langs, imports);
    ExtractedAreResolved(markdown);
  }

  const MaxCacheSize: nat := 500

  /** The cache's keys in insertion order match its entries, are distinct and non-empty, and number at most 500. */
  ghost predicate CacheWf(keys: seq<string>, entries: map<string, string>) {
    Distinct(keys) && (forall k :: k in entries <==> k in keys) && |keys| <= MaxCacheSize && "" !in entries
  }

  /** The keys after `renderCache.set(k, v)`, preceded by the eviction of the oldest key at capacity. */
  function StoredKeys(keys: seq<string>, k: string): seq<string> {
    var kept := if |keys| >= MaxCacheSize then keys[1..] else keys;
    if k in kept then kept else kept + [k]
  }

  /** The entries after the same eviction and `set`. */
  function StoredEntries(keys: seq<string>, entries: map<string, string>, k: string, v: string): map<string, string> {
    var kept := if |keys| >= MaxCacheSize then entries - {keys[0]} else entries;
    kept[k := v]
  }

  /**
   * Storing keeps the cache well formed and within 500 entries; on a miss at
   * capacity the oldest key gives way and the new one goes last; every other
   * entry is kept as it was.
   */
  lemma StoredSpec(keys: seq<string>, entries: map<string, string>, k: string, v: string)
    requires CacheWf(keys, entries) && k != ""
    ensures CacheWf(StoredKeys(keys, k), StoredEntries(keys, entries, k, v))
    ensures StoredEntries(keys, entries, k, v)[k] == v
    ensures k !in entries && |keys| == MaxCacheSize ==> StoredKeys(keys, k) == keys[1..] + [k]
    ensures k !in entries && |keys| < MaxCacheSize ==> StoredKeys(keys, k) == keys + [k]
    ensures forall x :: x in entries && x != k && (|keys| < MaxCacheSize || x != keys[0]) ==>
      x in StoredEntries(keys, entries, k, v) && StoredEntries(keys, entries, k, v)[x] == entries[x]
  {
    var kept := if |keys| >= MaxCacheSize then keys[1..] else keys;
    var keptEntries := if |keys| >= MaxCacheSize then entries - {keys[0]} else entries;
    assert forall x :: x in keptEntries <==> x in kept by {
      if |keys| >= MaxCacheSize {
        forall x ensures x in keptEntries <==> x in kept {
          if x in kept {
            var j :| 0 <= j < |kept| && kept[j] == x;
            assert keys[j + 1] == x;
          }
          if x in keys && x != keys[0] {
            var j :| 0 <= j < |keys| && keys[j] == x;
            assert kept[j - 1] == x;
          }
        }
      }
    }
    var r := StoredKeys(keys, k);
    if k !in kept {
      forall i, j | 0 <= i < j < |r| ensures r[i] != r[j] {
        if j < |kept| {
          assert r[i] == kept[i] && r[j] == kept[j];
        }
      }
    }
  }

  /** The module-level state of src/utils/markdown.ts: `loadedLanguages` and `renderCache`. */
  class Renderer {
    var loaded: set<string>
    var cacheKeys: seq<string>
    var cache: map<string, string>

    ghost predicate Valid()
      reads this
    {
      loaded <= LoaderNames && CacheWf(cacheKeys, cache)
    }

    constructor()
      ensures Valid() && loaded == {} && cacheKeys == [] && cache == map[]
    {
      loaded := {};
      cacheKeys := [];
      cache := map[];
    }

    /**
     * `loadLanguage(lang)`: true for a loaded language; false without a
     * loader; otherwise the outcome of the awaited import, registering the
     * language when it succeeds.
     */
    method LoadLanguage(lang: string, imported: bool) returns (ok: bool)
      modifies this`loaded
      ensures var r := ResolveLanguage(lang);
        && (ok <==> r in old(loaded) || (r in LoaderNames && imported))
        && loaded == (if r !in old(loaded) && r in LoaderNames && imported then old(loaded) + {r} else old(loaded))
    {
      var resolved := ResolveLanguage(lang);
      if resolved in loaded {
        return true;
      }
      if resolved !in LoaderNames {
        return false;
      }
      if imported {
        loaded := loaded + {resolved};
        ok := true;
      } else {
        ok := false;
      }
    }

    /**
     * `renderMarkdown(text)`: '' for a missing or empty text; a non-empty
     * cached rendering as is; otherwise the fence languages are loaded, the
     * text is parsed with the languages then loaded, and the result is stored.
     */
    method RenderMarkdown(text: Option<string>, imports: string -> bool, parse: (string, set<string>) -> string)
        returns (html: string)
      requires Valid()
      modifies this
      ensures Valid()
      ensures text.None? || text.value == "" ==>
        html == "" && loaded == old(loaded) && cacheKeys == old(cacheKeys) && cache == old(cache)
      ensures text.Some? && text.value in old(cache) && old(cache)[text.value] != "" ==>
        html == old(cache)[text.value] && loaded == old(loaded) && cacheKeys == old(cacheKeys) && cache == old(cache)
      ensures text.Some? && text.value != "" && (text.value !in old(cache) || old(cache)[text.value] == "") ==>
        && loaded == LoadedAfter(old(loaded), ExtractedLanguages(text.value), imports)
        && html == parse(text.value, loaded)
        && cacheKeys == StoredKeys(old(cacheKeys), text.value)
        && cache == StoredEntries(old(cacheKeys), old(cache), text.value, html)
    {
      if text.None? || text.value == "" {
        return "";
      }
      var t := text.value;
      if t in cache && cache[t] != "" {
        return cache[t];
      }
      var languages := ExtractLanguages(t);
      LoadLanguages(languages, imports);
      html := parse(t, loaded);
      Store(t, html);
    }

    /** `await Promise.all(languages.map(loadLanguage))`, one load after another. */
    method LoadLanguages(languages: seq<string>, imports: string -> bool)
      requires loaded <= LoaderNames
      modifies this`loaded
      ensures loaded <= LoaderNames
      ensures loaded == LoadedAfter(old(loaded), languages, imports)
    {
      var i := 0;
      while i < |languages|
        invariant 0 <= i <= |languages|
        invariant loaded <= LoaderNames
        invariant LoadedAfter(loaded, languages[i..], imports) == LoadedAfter(old(loaded), languages, imports)
      {
        assert languages[i..][1..] == languages[i + 1..];
        var _ := LoadLanguage(languages[i], imports(ResolveLanguage(languages[i])));
        i := i + 1;
      }
    }

    /** The eviction of the oldest key at capacity, then `renderCache.set(text, rendered)`. */
    method Store(t: string, rendered: string)
      requires CacheWf(cacheKeys, cache) && t != ""
      modifies this`cacheKeys, this`cache
      ensures CacheWf(cacheKeys, cache)
      ensures cacheKeys == StoredKeys(old(cacheKeys), t) && cache == StoredEntries(old(cacheKeys), old(cache), t, rendered)
    {
      StoredSpec(cacheKeys, cache, t, rendered);
      var kept := cacheKeys;
      if |cacheKeys| >= MaxCacheSize {
        var firstKey := cacheKeys[0];
        cache := cache - {firstKey};
        kept := cacheKeys[1..];
      }
      if t !in kept {
        kept := kept + [t];
      }
      cache := cache[t := rendered];
      cacheKeys := kept;
    }
  }

  /**
   * Rendering the same text twice parses it once: the second call returns the
   * stored rendering whenever that is non-empty.
   */
  method RenderTwice(text: string, imports: string -> bool, parse: (string, set<string>) -> string)
      returns (first: string, second: string)
    requires text != ""
    ensures first != "" ==> second == first
  {
    var r := new Renderer();
    first := r.RenderMarkdown(Some(text), imports, parse);
    second := r.RenderMarkdown(Some(text), imports, parse);
  }
}
