/**
 * The markdown renderer's text handling (src/components/ui/markdown-renderer.tsx):
 * the paragraph normalisation `MarkdownRenderer` applies, the line
 * segments `SplitMarkdownRenderer` renders, the flattening of a React
 * element tree to its text, and the `code` component's choice between a
 * highlighted block and inline code.
 */
module MarkdownRenderer {
  import opened Wrappers
  import opened Strings

  // ---------------------------------------------------------------------------
  // MarkdownRenderer
  // ---------------------------------------------------------------------------

  /** `pieces.map(p => p.trim())`. */
  function TrimAll(pieces: seq<string>): (r: seq<string>)
    ensures |r| == |pieces| && forall i :: 0 <= i < |r| ==> r[i] == Trim(pieces[i])
  {
    if |pieces| == 0 then [] else [Trim(pieces[0])] + TrimAll(pieces[1..])
  }

  /** The text `MarkdownRenderer` shows: split at each `"\n\n"`, trim each piece, join with one newline. */
  function RenderText(s: string): string {
    Join(TrimAll(Split(s, "\n\n")), "\n")
  }

  /** Trimming never lengthens a string. */
  lemma TrimShorter(s: string)
    ensures |Trim(s)| <= |s|
  {
  }

  /** Text without a blank-line break renders as itself, trimmed. */
  lemma RenderTextWithoutBreak(s: string)
    requires forall j :: !OccursAt(s, "\n\n", j)
    ensures RenderText(s) == Trim(s)
  {
    assert IndexOf(s, "\n\n", 0).None?;
  }

  /**
   * The rendered text is never longer than the input: each break of two
   * newlines becomes one and each piece can only lose whitespace.
   */
  lemma {:induction false} RenderTextShorter(s: string)
    ensures |RenderText(s)| <= |s|
    decreases |s|
  {
    match IndexOf(s, "\n\n", 0)
    case None =>
      TrimShorter(s);
    case Some(i) =>
      var rest := s[i + 2..];
      assert Split(s, "\n\n") == [s[..i]] + Split(rest, "\n\n");
      assert TrimAll(Split(s, "\n\n")) == [Trim(s[..i])] + TrimAll(Split(rest, "\n\n"));
      JoinCons(Trim(s[..i]), TrimAll(Split(rest, "\n\n")), "\n");
      RenderTextShorter(rest);
      TrimShorter(s[..i]);
  }

  // ---------------------------------------------------------------------------
  // SplitMarkdownRenderer
  // ---------------------------------------------------------------------------

  /** The end of the run of newlines of `s` that starts at `i`. */
  function NewlineRunEnd(s: string, i: nat): (j: nat)
    requires i <= |s|
    ensures i <= j <= |s|
    ensures forall k :: i <= k < j ==> s[k] == '\n'
    ensures j < |s| ==> s[j] != '\n'
    decreases |s| - i
  {
    if i < |s| && s[i] == '\n' then NewlineRunEnd(s, i + 1) else i
  }

  /**
   * `s.split(/\n{2,}/g)`: the pieces between the runs of two or more
   * newlines, each run found at its leftmost start and taken whole.
   */
  function Paragraphs(s: string): (r: seq<string>)
    ensures |r| >= 1
    decreases |s|
  {
    match IndexOf(s, "\n\n", 0)
    case None => [s]
    case Some(i) =>
      var j := NewlineRunEnd(s, i);
      [s[..i]] + Paragraphs(s[j..])
  }

  /** What one line contributes: its trim, unless that is empty. */
  function CleanLine(line: string): (r: seq<string>)
    ensures |r| <= 1
    ensures forall k :: 0 <= k < |r| ==> r[k] != "" && Trimmed(r[k])
  {
    var t := Trim(line);
    if t != "" then [t] else []
  }

  /** `lines.map(line => line.trim()).filter(Boolean)`. */
  function Clean(lines: seq<string>): (r: seq<string>)
    ensures |r| <= |lines|
    ensures forall k :: 0 <= k < |r| ==> r[k] != "" && Trimmed(r[k])
  {
    if |lines| == 0 then [] else CleanLine(lines[0]) + Clean(lines[1..])
  }

  /** The `flatMap` over the paragraphs. */
  function SegmentsOf(paragraphs: seq<string>): seq<string> {
    if |paragraphs| == 0 then [] else Clean(Lines(paragraphs[0])) + SegmentsOf(paragraphs[1..])
  }

  /** The segments `SplitMarkdownRenderer` renders, one markdown block each. */
  function Segments(s: string): seq<string> {
    SegmentsOf(Paragraphs(s))
  }

  /** Cleaning two lists back to back is cleaning each. */
  lemma {:induction false} CleanAppend(a: seq<string>, b: seq<string>)
    ensures Clean(a + b) == Clean(a) + Clean(b)
  {
    if |a| == 0 {
      assert a + b == b;
    } else {
      assert (a + b)[0] == a[0];
      assert (a + b)[1..] == a[1..] + b;
      CleanAppend(a[1..], b);
    }
  }

  /** A newline in front of a text adds one empty line in front of its lines. */
  lemma LinesAfterNewline(rest: string)
    ensures Lines("\n" + rest) == [""] + Lines(rest)
  {
    assert "\n" + rest == "" + ['\n'] + rest;
    SplitAppendChar("", '\n', rest);
    assert IndexOf("", "\n", 0).None?;
  }

  /** The lines of a text with a newline in it are the lines before it followed by the lines after it. */
  lemma LinesAtNewline(a: string, b: string)
    ensures Lines(a + ['\n'] + b) == Lines(a) + Lines(b)
  {
    SplitAppendChar(a, '\n', b);
  }

  /** Cleaning drops an empty line in front. */
  lemma CleanDropsEmpty(lines: seq<string>)
    ensures Clean([""] + lines) == Clean(lines)
  {
    assert ([""] + lines)[1..] == lines;
    assert CleanLine("") == [];
  }

  /** `m` newlines. */
  function Newlines(m: nat): (r: string)
    ensures |r| == m
  {
    if m == 0 then "" else "\n" + Newlines(m - 1)
  }

  /** One newline in front of a text adds one blank line, which cleaning drops. */
  lemma LeadingNewlineVanishes(m: nat, b: string)
    requires m > 0
    ensures Clean(Lines(Newlines(m) + b)) == Clean(Lines(Newlines(m - 1) + b))
  {
    var rest := Newlines(m - 1) + b;
    assert Newlines(m) + b == "\n" + rest;
    LinesAfterNewline(rest);
    CleanDropsEmpty(Lines(rest));
  }

  /** Newlines in front of a text add only blank lines, which cleaning drops. */
  lemma {:induction false} LeadingNewlinesVanish(m: nat, b: string)
    ensures Clean(Lines(Newlines(m) + b)) == Clean(Lines(b))
  {
    if m > 0 {
      LeadingNewlinesVanish(m - 1, b);
      LeadingNewlineVanishes(m, b);
    } else {
      assert Newlines(m) + b == b;
    }
  }

  /** A run of newlines is `Newlines` of its length. */
  lemma {:induction false} NewlineRun(t: string)
    requires forall k :: 0 <= k < |t| ==> t[k] == '\n'
    ensures t == Newlines(|t|)
  {
    if |t| > 0 {
      NewlineRun(t[1..]);
      assert t == "\n" + t[1..];
    }
  }

  /** A single paragraph's segments are its cleaned lines. */
  lemma SegmentsOfOne(p: string)
    ensures SegmentsOf([p]) == Clean(Lines(p))
  {
    assert [p][1..] == [];
    var c := Clean(Lines(p));
    assert c + [] == c;
  }

  /** The segments of the text before the first paragraph break are followed by those after it. */
  lemma SegmentsAtBreak(s: string, i: nat)
    requires IndexOf(s, "\n\n", 0) == Some(i)
    ensures Segments(s) == Clean(Lines(s[..i])) + Segments(s[NewlineRunEnd(s, i)..])
  {
    var j := NewlineRunEnd(s, i);
    assert Paragraphs(s) == [s[..i]] + Paragraphs(s[j..]);
    assert ([s[..i]] + Paragraphs(s[j..]))[1..] == Paragraphs(s[j..]);
  }

  /** A stretch of newlines inside a text is `Newlines` of its length. */
  lemma NewlineStretch(s: string, a: nat, b: nat)
    requires a <= b <= |s|
    requires forall k :: a <= k < b ==> s[k] == '\n'
    ensures s[a..b] == Newlines(b - a)
  {
    var run := s[a..b];
    forall k | 0 <= k < |run|
      ensures run[k] == '\n'
    {
      assert run[k] == s[a + k];
    }
    NewlineRun(run);
  }

  /** A text is what comes before position `i`, the character there, and what follows. */
  lemma AroundIndex(s: string, i: nat)
    requires i < |s|
    ensures s == s[..i] + [s[i]] + s[i + 1..]
  {
    assert s[..i] + [s[i]] + s[i + 1..] == s[..i] + s[i..];
  }

  /** A suffix is the stretch up to a later position followed by the suffix from there. */
  lemma SuffixAt(s: string, a: nat, b: nat)
    requires a <= b <= |s|
    ensures s[a..] == s[a..b] + s[b..]
  {
  }

  /** At the first paragraph break the text reads: the part before it, a newline, the rest of the run, the part after it. */
  lemma BreakShape(s: string, i: nat)
    requires i < |s| && s[i] == '\n'
    ensures i < NewlineRunEnd(s, i)
    ensures s == s[..i] + ['\n'] + s[i + 1..]
    ensures s[i + 1..] == Newlines(NewlineRunEnd(s, i) - i - 1) + s[NewlineRunEnd(s, i)..]
  {
    var j := NewlineRunEnd(s, i);
    NewlineStretch(s, i + 1, j);
    SuffixAt(s, i + 1, j);
    AroundIndex(s, i);
  }

  /** Cutting the lines at a run of two or more newlines loses only blank lines. */
  lemma CleanLinesAtBreak(s: string, i: nat)
    requires IndexOf(s, "\n\n", 0) == Some(i)
    ensures Clean(Lines(s)) == Clean(Lines(s[..i])) + Clean(Lines(s[NewlineRunEnd(s, i)..]))
  {
    var j := NewlineRunEnd(s, i);
    var before, after := s[..i], s[i + 1..];
    assert s[i] == s[i..i + 2][0] == '\n';
    BreakShape(s, i);
    LinesAtNewline(before, after);
    assert Lines(s) == Lines(before) + Lines(after);
    LeadingNewlinesVanish(j - i - 1, s[j..]);
    assert Clean(Lines(after)) == Clean(Lines(s[j..]));
    CleanAppend(Lines(before), Lines(after));
  }

  /**
   * Splitting into paragraphs first changes nothing: the segments are the
   * input's own lines, trimmed, with the blank ones dropped, in order.
   */
  lemma {:induction false} SegmentsAreCleanLines(s: string)
    ensures Segments(s) == Clean(Lines(s))
    decreases |s|
  {
    match IndexOf(s, "\n\n", 0)
    case None =>
      assert Paragraphs(s) == [s];
      SegmentsOfOne(s);
    case Some(i) =>
      SegmentsAtBreak(s, i);
      CleanLinesAtBreak(s, i);
      SegmentsAreCleanLines(s[NewlineRunEnd(s, i)..]);
  }

  /** Cleaning lines without newlines leaves pieces without newlines. */
  lemma {:induction false} CleanKeepsNewlineFree(lines: seq<string>)
    requires forall i :: 0 <= i < |lines| ==> '\n' !in lines[i]
    ensures forall k :: 0 <= k < |Clean(lines)| ==> '\n' !in Clean(lines)[k]
  {
    if |lines| > 0 {
      TrimKeepsAbsent(lines[0], '\n');
      CleanKeepsNewlineFree(lines[1..]);
    }
  }

  /** Every segment is non-empty, trimmed and free of newlines. */
  lemma SegmentShape(s: string)
    ensures forall k :: 0 <= k < |Segments(s)| ==>
      Segments(s)[k] != "" && Trimmed(Segments(s)[k]) && '\n' !in Segments(s)[k]
  {
    SegmentsAreCleanLines(s);
    forall i | 0 <= i < |Lines(s)| ensures '\n' !in Lines(s)[i] {
      LinesHaveNoNewline(s, i);
    }
    CleanKeepsNewlineFree(Lines(s));
  }

  // ---------------------------------------------------------------------------
  // childrenTakeAllStringContents
  // ---------------------------------------------------------------------------

  /**
   * A React node as the flattening sees it: a string, a number, a
   * boolean, `null` or `undefined`, an array of nodes, or an element and
   * its `props.children`.
   */
  datatype Node =
    | NText(s: string)
    | NNumber(n: int)
    | NBool(b: bool)
    | NNull
    | NList(items: seq<Node>)
    | NElement(children: Node)

  /** JavaScript truthiness of a node. */
  predicate NodeTruthy(n: Node) {
    match n
    case NText(s) => s != ""
    case NNumber(k) => k != 0
    case NBool(b) => b
    case NNull => false
    case NList(_) => true
    case NElement(_) => true
  }

  /**
   * `childrenTakeAllStringContents`: a string is itself; an element with
   * truthy children gives the flattening of each child joined together
   * when the children are an array, and of the single child otherwise;
   * anything else gives the empty string.
   */
  function Flatten(n: Node): string
    decreases n, 0
  {
    match n
    case NText(s) => s
    case NElement(c) =>
      if !NodeTruthy(c) then ""
      else if c.NList? then FlattenFrom(c, 0)
      else Flatten(c)
    case _ => ""
  }

  /** `children.slice(i).map(Flatten).join("")`. */
  function FlattenFrom(list: Node, i: nat): string
    requires list.NList? && i <= |list.items|
    decreases list, |list.items| - i
  {
    if i == |list.items| then "" else Flatten(list.items[i]) + FlattenFrom(list, i + 1)
  }

  /** The children of an element holding `a` and then `b` flatten to those of `a` followed by those of `b`. */
  lemma {:induction false} FlattenFromAppend(a: seq<Node>, b: seq<Node>, i: nat)
    requires i <= |a|
    ensures FlattenFrom(NList(a + b), i) == FlattenFrom(NList(a), i) + FlattenFrom(NList(b), 0)
    decreases |a| - i
  {
    if i < |a| {
      assert (a + b)[i] == a[i];
      FlattenFromAppend(a, b, i + 1);
    } else {
      FlattenFromShift(a, b, 0);
    }
  }

  /** Past the end of `a`, the children of `a + b` are those of `b`. */
  lemma {:induction false} FlattenFromShift(a: seq<Node>, b: seq<Node>, k: nat)
    requires k <= |b|
    ensures FlattenFrom(NList(a + b), |a| + k) == FlattenFrom(NList(b), k)
    decreases |b| - k
  {
    if k < |b| {
      assert (a + b)[|a| + k] == b[k];
      FlattenFromShift(a, b, k + 1);
    }
  }

  /**
   * The flattening reads an element's array children in order: their
   * texts are concatenated, the empty array gives nothing, and a single
   * child in an array counts as that child.
   */
  lemma FlattenChildren(a: seq<Node>, b: seq<Node>, x: Node)
    ensures Flatten(NElement(NList(a + b))) == Flatten(NElement(NList(a))) + Flatten(NElement(NList(b)))
    ensures Flatten(NElement(NList([]))) == ""
    ensures Flatten(NElement(NList([x]))) == Flatten(x)
  {
    FlattenFromAppend(a, b, 0);
    assert FlattenFrom(NList([x]), 1) == "";
  }

  /** A string is its own flattening; a truthy single child is flattened in its element's place; other nodes give "". */
  lemma FlattenLeaves(s: string, c: Node)
    ensures Flatten(NText(s)) == s
    ensures NodeTruthy(c) && !c.NList? ==> Flatten(NElement(c)) == Flatten(c)
    ensures !NodeTruthy(c) ==> Flatten(NElement(c)) == ""
    ensures !c.NText? && !c.NElement? ==> Flatten(c) == ""
  {
  }

  // ---------------------------------------------------------------------------
  // The code component
  // ---------------------------------------------------------------------------

  /** `\w`. */
  predicate IsWordChar(c: char) {
    ('a' <= c <= 'z') || ('A' <= c <= 'Z') || ('0' <= c <= '9') || c == '_'
  }

  /** The end of the run of word characters of `s` that starts at `i`. */
  function WordEnd(s: string, i: nat): (j: nat)
    requires i <= |s|
    ensures i <= j <= |s|
    ensures forall k :: i <= k < j ==> IsWordChar(s[k])
    ensures j < |s| ==> !IsWordChar(s[j])
    decreases |s| - i
  {
    if i < |s| && IsWordChar(s[i]) then WordEnd(s, i + 1) else i
  }

  const LanguagePrefix := "language-"

  /** `/language-(\w+)/` tried at index `i`: the prefix and the longest non-empty run of word characters after it. */
  function LanguageAt(s: string, i: nat): (r: Option<string>)
    requires i <= |s|
    ensures r.Some? <==>
      OccursAt(s, LanguagePrefix, i) && i + |LanguagePrefix| < |s| && IsWordChar(s[i + |LanguagePrefix|])
    ensures r.Some? ==>
      var a := i + |LanguagePrefix|;
      var e := a + |r.value|;
      && e <= |s| && s[a..e] == r.value
      && (forall k :: a <= k < e ==> IsWordChar(s[k]))
      && (e < |s| ==> !IsWordChar(s[e]))
  {
    if !OccursAt(s, LanguagePrefix, i) then None
    else
      var a := i + |LanguagePrefix|;
      var e := WordEnd(s, a);
      if e == a then None else Some(s[a..e])
  }

  /** The index of the leftmost match at or after `i`; `|s| + 1` when there is none. */
  function FirstLanguageIndex(s: string, i: nat): (k: nat)
    requires i <= |s|
    ensures i <= k <= |s| + 1
    ensures k <= |s| ==> LanguageAt(s, k).Some?
    ensures forall j :: i <= j < k && j <= |s| ==> LanguageAt(s, j).None?
    decreases |s| - i
  {
    if LanguageAt(s, i).Some? then i
    else if i == |s| then |s| + 1
    else FirstLanguageIndex(s, i + 1)
  }

  /** The language `/language-(\w+)/.exec(className || "")` captures. */
  function CodeLanguage(className: Option<string>): (r: Option<string>)
    ensures r.Some? ==> r.value != "" && forall k :: 0 <= k < |r.value| ==> IsWordChar(r.value[k])
    ensures var s := className.GetOr("");
      r.Some? <==> exists i :: 0 <= i <= |s| && LanguageAt(s, i).Some?
    ensures var s := className.GetOr("");
      r.Some? ==> exists i :: 0 <= i <= |s| && LanguageAt(s, i) == r && forall j :: 0 <= j < i ==> LanguageAt(s, j).None?
  {
    var s := className.GetOr("");
    var k := FirstLanguageIndex(s, 0);
    if k <= |s| then LanguageAt(s, k) else None
  }

  /** A class reading `language-` and a word, then nothing or a non-word character, names that language. */
  lemma CodeLanguageOfClass(w: string, rest: string)
    requires w != "" && (forall k :: 0 <= k < |w| ==> IsWordChar(w[k]))
    requires rest == "" || !IsWordChar(rest[0])
    ensures CodeLanguage(Some(LanguagePrefix + w + rest)) == Some(w)
  {
    var s := LanguagePrefix + w + rest;
    assert OccursAt(s, LanguagePrefix, 0);
    var e := WordEnd(s, |LanguagePrefix|);
    assert s[|LanguagePrefix|..|LanguagePrefix| + |w|] == w;
  }

  /** A class that never contains `language-` (or no class at all) gives no language. */
  lemma CodeLanguageNone(className: Option<string>)
    requires forall j :: !OccursAt(className.GetOr(""), LanguagePrefix, j)
    ensures CodeLanguage(className).None?
  {
  }

  /** The copy text as written: `children` when it is a string, its flattening otherwise. */
  function CopyTextAsWritten(children: Node): string {
    if children.NText? then children.s else Flatten(children)
  }

  /**
   * As written, code whose children are an array copies as the empty
   * string, because an array has no `props` for the flattening to read.
   */
  lemma CopyTextDropsArrayChildren()
    ensures CopyTextAsWritten(NList([NText("a"), NText("b")])) == ""
    ensures CopyText(NList([NText("a"), NText("b")])) == "ab"
  {
    var xs := [NText("a"), NText("b")];
    assert FlattenFrom(NList(xs), 2) == "";
    assert FlattenFrom(NList(xs), 1) == "b";
  }

  /** The copy text the code block evidently means: the text of its children, also when they are an array. */
  function CopyText(children: Node): (r: string)
    ensures children.NText? ==> r == children.s
  {
    if children.NText? then children.s
    else if children.NList? then FlattenFrom(children, 0)
    else Flatten(children)
  }

  /**
   * The corrected copy text reads array children as an element holding
   * them would be read, and agrees with the code as written on every
   * other node.
   */
  lemma CopyTextAgrees(children: Node)
    ensures children.NList? ==> CopyText(children) == Flatten(NElement(children))
    ensures !children.NList? ==> CopyText(children) == CopyTextAsWritten(children)
  {
  }

  /** What the `code` component renders. */
  datatype CodeView = CodeBlock(language: string, copy: string) | InlineCode

  /** `code`: a class naming a language gives a highlighted block with its copy text; anything else inline code. */
  function Code(className: Option<string>, children: Node): (v: CodeView)
    ensures v.CodeBlock? <==> CodeLanguage(className).Some?
    ensures v.CodeBlock? ==> v.language == CodeLanguage(className).value && v.copy == CopyTextAsWritten(children)
  {
    match CodeLanguage(className)
    case Some(language) => CodeBlock(language, CopyTextAsWritten(children))
    case None => InlineCode
  }

  /** The discrepancy at the component: a TypeScript block whose children are `["a", "b"]` copies "" as written and "ab" corrected. */
  lemma CodeArrayChildrenCopy()
    ensures var kids := NList([NText("a"), NText("b")]);
      && Code(Some("language-ts"), kids) == CodeBlock("ts", "")
      && CodeCorrected(Some("language-ts"), kids) == CodeBlock("ts", "ab")
  {
    CopyTextDropsArrayChildren();
    CodeLanguageOfClass("ts", "");
    assert LanguagePrefix + "ts" + "" == "language-ts";
    assert CodeLanguage(Some("language-ts")) == Some("ts");
  }

  /** `code` with the corrected copy text: the same dispatch, a different copy only for array children. */
  function CodeCorrected(className: Option<string>, children: Node): (v: CodeView)
    ensures v.CodeBlock? <==> Code(className, children).CodeBlock?
    ensures v.CodeBlock? ==> v.language == Code(className, children).language && v.copy == CopyText(children)
    ensures !children.NList? ==> v == Code(className, children)
  {
    CopyTextAgrees(children);
    match CodeLanguage(className)
    case Some(language) => CodeBlock(language, CopyText(children))
    case None => InlineCode
  }
}
