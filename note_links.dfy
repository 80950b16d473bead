/** The markdown-style links of a note's content: appending `[text](url)`
    to the content, and splitting the content into plain segments and links
    with the pattern `\[([^\]]+)\]\(([^)]+)\)`, scanned left to right, each
    search resuming where the previous match ended. */
module NoteLinks {
  import opened Common

  /** A segment of the rendered content: plain text, or a link with its
      label (the first group) and its address (the second group). */
  datatype Part = Text(text: string) | Link(caption: string, url: string)

  // ---------------------------------------------------------------------------
  // Appending a link

  /** `[${text}](${url})` */
  function Markup(text: string, url: string): string {
    "[" + text + "](" + url + ")"
  }

  /** `addHyperlinkToNote`'s new content: the old content, a line break when
      it was non-empty, then the markup. */
  function WithLink(content: string, url: string, text: string): (r: string)
    ensures |content| <= |r| && r[..|content|] == content
    ensures content == "" ==> r == Markup(text, url)
    ensures content != "" ==> r[|content|..] == "\n" + Markup(text, url)
  {
    content + (if content != "" then "\n" else "") + Markup(text, url)
  }

  /** The link button: the link text defaults to `Link` when none is
      entered, and nothing is added without an address. */
  function LinkText(entered: Option<string>): (r: string)
    ensures r != ""
    ensures entered.Some? && entered.value != "" ==> r == entered.value
  {
    if entered.Some? && entered.value != "" then entered.value else "Link"
  }

  // ---------------------------------------------------------------------------
  // One match of the pattern

  /** The first position at or after `i` holding `c`, or `|s|` when there is none. */
  function IndexOf(s: string, i: nat, c: char): (r: nat)
    requires i <= |s|
    ensures i <= r <= |s|
    ensures forall j :: i <= j < r ==> s[j] != c
    ensures r < |s| ==> s[r] == c
    decreases |s| - i
  {
    if i == |s| || s[i] == c then i else IndexOf(s, i + 1, c)
  }

  /** A match: `[` at `start`, `]` at `close`, `(` right after it and `)`
      at `paren`. */
  datatype Match = Match(start: nat, close: nat, paren: nat)

  /** What the pattern demands of a match: a non-empty label free of `]`
      between the brackets, and a non-empty address free of `)` between the
      parentheses. */
  predicate IsMatch(s: string, m: Match) {
    && m.start + 1 < m.close && m.close + 2 < m.paren < |s|
    && s[m.start] == '[' && s[m.close] == ']' && s[m.close + 1] == '(' && s[m.paren] == ')'
    && (forall j :: m.start < j < m.close ==> s[j] != ']')
    && (forall j :: m.close + 1 < j < m.paren ==> s[j] != ')')
  }

  /** The match starting at `i`, if the pattern matches there. Both groups
      are greedy over characters their closing character cannot be, so each
      runs to the first such closing character. */
  function MatchAt(s: string, i: nat): (r: Option<Match>)
    requires i <= |s|
    ensures r.Some? ==> r.value.start == i && IsMatch(s, r.value)
  {
    if i + 1 < |s| && s[i] == '[' then
      var close := IndexOf(s, i + 1, ']');
      if close > i + 1 && close + 1 < |s| && s[close + 1] == '(' then
        var paren := IndexOf(s, close + 2, ')');
        if paren > close + 2 && paren < |s| then Some(Match(i, close, paren)) else None
      else None
    else None
  }

  /** `linkRegex.exec(content)` with `lastIndex` at `from`: the leftmost match
      starting at or after `from`. */
  function NextMatch(s: string, from: nat): (r: Option<Match>)
    requires from <= |s|
    ensures r.Some? ==> from <= r.value.start && IsMatch(s, r.value)
    decreases |s| - from
  {
    var m := MatchAt(s, from);
    if m.Some? || from == |s| then m else NextMatch(s, from + 1)
  }

  /** Wherever the pattern matches, `MatchAt` finds that very match: the
      bracket and the parenthesis it closes on are the first ones after the
      opening characters. */
  lemma MatchAtComplete(s: string, m: Match)
    requires IsMatch(s, m)
    ensures MatchAt(s, m.start) == Some(m)
  {
    IndexOfFirst(s, m.start + 1, ']', m.close);
    IndexOfFirst(s, m.close + 2, ')', m.paren);
  }

  /** `IndexOf` stops at the first occurrence. */
  lemma IndexOfFirst(s: string, i: nat, c: char, k: nat)
    requires i <= k < |s| && s[k] == c
    requires forall j :: i <= j < k ==> s[j] != c
    ensures IndexOf(s, i, c) == k
  {
  }

  /** The match found is the leftmost one the pattern has at or after
      `from`, and when none is found the pattern matches nowhere from
      `from` on. */
  lemma NextMatchLeftmost(s: string, from: nat)
    requires from <= |s|
    ensures var r := NextMatch(s, from);
      && (r.Some? ==> forall m :: IsMatch(s, m) && from <= m.start ==> r.value.start <= m.start)
      && (r.None? ==> forall m :: IsMatch(s, m) ==> m.start < from)
  {
    NextMatchFirst(s, from);
    forall m | IsMatch(s, m) && from <= m.start
      ensures NextMatch(s, from).Some? && NextMatch(s, from).value.start <= m.start
    {
      MatchAtComplete(s, m);
    }
  }

  /** No position between `from` and the match found holds a match, and
      none from `from` on when nothing is found. */
  lemma {:induction false} NextMatchFirst(s: string, from: nat)
    requires from <= |s|
    ensures var r := NextMatch(s, from);
      && (r.Some? ==> forall j :: from <= j < r.value.start ==> MatchAt(s, j).None?)
      && (r.None? ==> forall j :: from <= j <= |s| ==> MatchAt(s, j).None?)
    decreases |s| - from
  {
    var here := MatchAt(s, from);
    if here.None? && from < |s| {
      var r := NextMatch(s, from + 1);
      assert NextMatch(s, from) == r;
      NextMatchFirst(s, from + 1);
      NoMatchExtend(s, from, if r.Some? then r.value.start else |s| + 1);
    }
  }

  /** No match at `from` and none from the next position up to `to` means
      none from `from` up to `to`. */
  lemma NoMatchExtend(s: string, from: nat, to: nat)
    requires from < |s| && MatchAt(s, from).None?
    requires forall j :: from + 1 <= j < to && j <= |s| ==> MatchAt(s, j).None?
    ensures forall j :: from <= j < to && j <= |s| ==> MatchAt(s, j).None?
  {
  }

  function CaptionOf(s: string, m: Match): string
    requires IsMatch(s, m)
  {
    s[m.start + 1..m.close]
  }

  function UrlOf(s: string, m: Match): string
    requires IsMatch(s, m)
  {
    s[m.close + 2..m.paren]
  }

  // ---------------------------------------------------------------------------
  // The segments

  /** A segment as the tokenizer can produce it: plain text is never empty,
      a label never holds `]` and an address never holds `)`, and neither
      is empty. */
  predicate WellFormed(p: Part) {
    match p
    case Text(t) => t != ""
    case Link(l, u) => l != "" && u != "" && (forall i :: 0 <= i < |l| ==> l[i] != ']') && (forall i :: 0 <= i < |u| ==> u[i] != ')')
  }

  /** The segments of `s` from position `from` on: the text before the next
      match, the match as a link, and the segments after it. */
  function Tokenize(s: string, from: nat): (r: seq<Part>)
    requires from <= |s|
    decreases |s| - from
  {
    match NextMatch(s, from)
    case None => if from < |s| then [Text(s[from..])] else []
    case Some(m) =>
      (if from < m.start then [Text(s[from..m.start])] else [])
      + [Link(CaptionOf(s, m), UrlOf(s, m))]
      + Tokenize(s, m.paren + 1)
  }

  predicate AllWellFormed(ps: seq<Part>) {
    forall i :: 0 <= i < |ps| ==> WellFormed(ps[i])
  }

  lemma AllWellFormedConcat(ps: seq<Part>, qs: seq<Part>)
    requires AllWellFormed(ps) && AllWellFormed(qs)
    ensures AllWellFormed(ps + qs)
  {
  }

  /** A match's link is well formed. */
  lemma FoundWellFormed(s: string, from: nat, m: Match)
    requires from <= m.start && IsMatch(s, m)
    ensures AllWellFormed(Before(s, from, m) + [Link(CaptionOf(s, m), UrlOf(s, m))])
  {
    assert WellFormed(Link(CaptionOf(s, m), UrlOf(s, m)));
  }

  /** Every segment is well formed. */
  lemma {:induction false} TokenizeWellFormed(s: string, from: nat)
    requires from <= |s|
    ensures AllWellFormed(Tokenize(s, from))
    decreases |s| - from
  {
    match NextMatch(s, from)
    case None =>
      WellFormedDone(s, from);
    case Some(m) =>
      TokenizeWellFormed(s, m.paren + 1);
      WellFormedFound(s, from, m);
  }

  /** The last segment, the text after the last match, is well formed. */
  lemma WellFormedDone(s: string, from: nat)
    requires from <= |s| && NextMatch(s, from).None?
    ensures AllWellFormed(Tokenize(s, from))
  {
    TokenizeDone(s, from);
  }

  /** The segments of one match, followed by well-formed segments, are
      well formed. */
  lemma WellFormedFound(s: string, from: nat, m: Match)
    requires from <= |s| && NextMatch(s, from) == Some(m)
    requires AllWellFormed(Tokenize(s, m.paren + 1))
    ensures AllWellFormed(Tokenize(s, from))
  {
    TokenizeFound(s, from, m);
    FoundWellFormed(s, from, m);
    AllWellFormedConcat(Before(s, from, m) + [Link(CaptionOf(s, m), UrlOf(s, m))], Tokenize(s, m.paren + 1));
  }

  /** The text a segment was cut from. */
  function Source(p: Part): string {
    match p
    case Text(t) => t
    case Link(l, u) => Markup(l, u)
  }

  function Join(ps: seq<Part>): string {
    if ps == [] then "" else Source(ps[0]) + Join(ps[1..])
  }

  lemma {:induction false} JoinConcat(ps: seq<Part>, qs: seq<Part>)
    ensures Join(ps + qs) == Join(ps) + Join(qs)
  {
    if ps == [] {
      assert ps + qs == qs;
    } else {
      var all := ps + qs;
      assert all[0] == ps[0] && all[1..] == ps[1..] + qs;
      JoinConcat(ps[1..], qs);
      var h, a, b := Source(ps[0]), Join(ps[1..]), Join(qs);
      assert Join(all) == h + (a + b);
      assert h + (a + b) == (h + a) + b;
    }
  }

  /** A match spans exactly the markup of its label and address. */
  lemma MatchSource(s: string, m: Match)
    requires IsMatch(s, m)
    ensures s[m.start..m.paren + 1] == Markup(CaptionOf(s, m), UrlOf(s, m))
  {
    SliceSplit(s, m.start, m.paren, m.paren + 1);
    SliceSplit(s, m.start, m.close + 2, m.paren);
    SliceSplit(s, m.start, m.close, m.close + 2);
    SliceSplit(s, m.start, m.start + 1, m.close);
    assert s[m.start..m.start + 1] == "[";
    assert s[m.close..m.close + 2] == "](";
    assert s[m.paren..m.paren + 1] == ")";
  }

  /** The text before a match: empty when the match starts right at `from`. */
  function Before(s: string, from: nat, m: Match): seq<Part>
    requires from <= m.start <= |s|
  {
    if from < m.start then [Text(s[from..m.start])] else []
  }

  /** One step of the tokenizer when a match is found. */
  lemma TokenizeFound(s: string, from: nat, m: Match)
    requires from <= |s| && NextMatch(s, from) == Some(m)
    ensures Tokenize(s, from) == Before(s, from, m) + [Link(CaptionOf(s, m), UrlOf(s, m))] + Tokenize(s, m.paren + 1)
  {
  }

  /** The tokenizer's end, when no match is left. */
  lemma TokenizeDone(s: string, from: nat)
    requires from <= |s| && NextMatch(s, from).None?
    ensures Tokenize(s, from) == if from < |s| then [Text(s[from..])] else []
  {
  }

  /** A match's text, cut between `from` and the end of the match, is the
      text before it followed by its markup. */
  lemma JoinFound(s: string, from: nat, m: Match)
    requires from <= m.start && IsMatch(s, m)
    ensures Join(Before(s, from, m) + [Link(CaptionOf(s, m), UrlOf(s, m))]) == s[from..m.paren + 1]
  {
    var before, link := Before(s, from, m), Link(CaptionOf(s, m), UrlOf(s, m));
    JoinBefore(s, from, m);
    JoinLink(s, m);
    SliceSplit(s, from, m.start, m.paren + 1);
    JoinPieces(before, [link], s[from..m.start], s[m.start..m.paren + 1], s[from..m.paren + 1]);
  }

  /** Segments that spell out `a`, followed by segments that spell out `b`,
      spell out `a + b`. */
  lemma JoinPieces(ps: seq<Part>, qs: seq<Part>, a: string, b: string, whole: string)
    requires Join(ps) == a && Join(qs) == b && whole == a + b
    ensures Join(ps + qs) == whole
  {
    JoinConcat(ps, qs);
  }

  /** A match's link is put back as the text it was cut from. */
  lemma JoinLink(s: string, m: Match)
    requires IsMatch(s, m)
    ensures Join([Link(CaptionOf(s, m), UrlOf(s, m))]) == s[m.start..m.paren + 1]
  {
    JoinSingle(Link(CaptionOf(s, m), UrlOf(s, m)));
    MatchSource(s, m);
  }

  lemma JoinSingle(p: Part)
    ensures Join([p]) == Source(p)
  {
    assert Join([p]) == Source(p) + Join([]);
  }

  /** The text before a match is put back as it is. */
  lemma JoinBefore(s: string, from: nat, m: Match)
    requires from <= m.start <= |s|
    ensures Join(Before(s, from, m)) == s[from..m.start]
  {
    if from < m.start {
      JoinSingle(Text(s[from..m.start]));
    }
  }

  lemma SuffixSplit<T>(s: seq<T>, i: nat, j: nat)
    requires i <= j <= |s|
    ensures s[i..] == s[i..j] + s[j..]
  {
  }

  lemma SliceSplit<T>(s: seq<T>, i: nat, j: nat, k: nat)
    requires i <= j <= k <= |s|
    ensures s[i..k] == s[i..j] + s[j..k]
  {
  }

  /** Nothing is lost or added: the segments, each put back as the text it
      was cut from, spell out the content. */
  lemma {:induction false} Reconstruct(s: string, from: nat)
    requires from <= |s|
    ensures Join(Tokenize(s, from)) == s[from..]
    decreases |s| - from
  {
    match NextMatch(s, from)
    case None =>
      ReconstructDone(s, from);
    case Some(m) =>
      Reconstruct(s, m.paren + 1);
      ReconstructFound(s, from, m);
  }

  /** With no match left the segments spell out the rest of the text. */
  lemma ReconstructDone(s: string, from: nat)
    requires from <= |s| && NextMatch(s, from).None?
    ensures Join(Tokenize(s, from)) == s[from..]
  {
    TokenizeDone(s, from);
    JoinRest(s, from);
  }

  /** With a match found, the segments spell out the text when those after
      the match spell out the text after it. */
  lemma ReconstructFound(s: string, from: nat, m: Match)
    requires from <= |s| && NextMatch(s, from) == Some(m)
    requires Join(Tokenize(s, m.paren + 1)) == s[m.paren + 1..]
    ensures Join(Tokenize(s, from)) == s[from..]
  {
    TokenizeFound(s, from, m);
    JoinStep(s, from, m, Tokenize(s, m.paren + 1));
  }

  /** The text after the last match is put back as it is. */
  lemma JoinRest(s: string, from: nat)
    requires from <= |s|
    ensures Join(if from < |s| then [Text(s[from..])] else []) == s[from..]
  {
    if from < |s| {
      assert Join([Text(s[from..])]) == s[from..] + "";
    }
  }

  /** Putting back the text before a match and the match in front of the
      segments of the rest spells out the text from `from` on. */
  lemma JoinStep(s: string, from: nat, m: Match, rest: seq<Part>)
    requires from <= m.start && IsMatch(s, m)
    requires Join(rest) == s[m.paren + 1..]
    ensures Join(Before(s, from, m) + [Link(CaptionOf(s, m), UrlOf(s, m))] + rest) == s[from..]
  {
    JoinFound(s, from, m);
    JoinAround(Before(s, from, m) + [Link(CaptionOf(s, m), UrlOf(s, m))], rest, s, from, m.paren + 1);
  }

  /** Segments that spell out the text up to `mid`, followed by segments
      that spell out the text after it, spell out the whole text from `from`. */
  lemma JoinAround(found: seq<Part>, rest: seq<Part>, s: string, from: nat, mid: nat)
    requires from <= mid <= |s|
    requires Join(found) == s[from..mid] && Join(rest) == s[mid..]
    ensures Join(found + rest) == s[from..]
  {
    SuffixSplit(s, from, mid);
    JoinPieces(found, rest, s[from..mid], s[mid..], s[from..]);
  }

  /** The markup of a label free of `]` and an address free of `)`, both
      non-empty, renders as exactly that one link. */
  lemma MarkupRoundTrip(text: string, url: string)
    requires text != "" && forall i :: 0 <= i < |text| ==> text[i] != ']'
    requires url != "" && forall i :: 0 <= i < |url| ==> url[i] != ')'
    ensures Tokenize(Markup(text, url), 0) == [Link(text, url)]
  {
    var s := Markup(text, url);
    var m := Match(0, |text| + 1, |text| + |url| + 3);
    MarkupMatch(text, url);
    assert NextMatch(s, 0) == Some(m);
    TokenizeFound(s, 0, m);
    assert NextMatch(s, |s|) == None;
    TokenizeDone(s, |s|);
  }

  /** The markup is one match spanning all of it, with the label and the
      address as its groups. */
  lemma MarkupMatch(text: string, url: string)
    requires text != "" && forall i :: 0 <= i < |text| ==> text[i] != ']'
    requires url != "" && forall i :: 0 <= i < |url| ==> url[i] != ')'
    ensures var s := Markup(text, url);
      var m := Match(0, |text| + 1, |text| + |url| + 3);
      && |s| == m.paren + 1 && MatchAt(s, 0) == Some(m)
      && CaptionOf(s, m) == text && UrlOf(s, m) == url
  {
    var s := Markup(text, url);
    var m := Match(0, |text| + 1, |text| + |url| + 3);
    assert s[1..|text| + 1] == text;
    assert s[|text| + 3..|text| + |url| + 3] == url;
    assert IsMatch(s, m);
  }

  /** The segments still to come from `from` on, as the loop below tracks
      them. */
  ghost function Rest(s: string, from: nat): seq<Part>
    requires from <= |s|
  {
    Tokenize(s, from)
  }

  /** `renderContentWithLinks`: the loop over `exec`, pushing the text
      before each match and the match's link, then the text after the last
      match. */
  method RenderContentWithLinks(content: string) returns (parts: seq<Part>)
    ensures parts == Tokenize(content, 0)
  {
    ghost var all := Rest(content, 0);
    ghost var rest := all;
    parts := [];
    var lastIndex := 0;
    var m := NextMatch(content, lastIndex);
    assert parts + rest == all;
    while m.Some?
      invariant lastIndex <= |content|
      invariant m == NextMatch(content, lastIndex)
      invariant rest == Rest(content, lastIndex)
      invariant parts + rest == all
      decreases |content| - lastIndex
    {
      parts, rest, lastIndex, m := TakeMatch(content, lastIndex, m.value, parts, rest, all);
    }
    RenderDone(content, lastIndex, parts, rest, all);
    parts := PushTail(content, lastIndex, parts);
    assert parts == all;
  }

  /** After the loop: the text after the last match, if any. */
  method PushTail(content: string, lastIndex: nat, parts: seq<Part>) returns (pushed: seq<Part>)
    requires lastIndex <= |content|
    ensures pushed == parts + if lastIndex < |content| then [Text(content[lastIndex..])] else []
  {
    pushed := parts;
    if lastIndex < |content| {
      pushed := pushed + [Text(content[lastIndex..])];
    }
  }

  /** One turn of the loop: push the match found, resume the search right
      after it. */
  method TakeMatch(content: string, lastIndex: nat, found: Match, parts: seq<Part>, ghost rest: seq<Part>, ghost all: seq<Part>)
    returns (pushed: seq<Part>, ghost next: seq<Part>, after: nat, m: Option<Match>)
    requires lastIndex <= |content| && NextMatch(content, lastIndex) == Some(found)
    requires rest == Rest(content, lastIndex) && parts + rest == all
    ensures lastIndex < after <= |content| && m == NextMatch(content, after)
    ensures next == Rest(content, after) && pushed + next == all
  {
    pushed := PushMatch(content, lastIndex, found, parts);
    next := RenderStep(content, lastIndex, found, parts, pushed, rest, all);
    after := found.paren + 1;
    m := NextMatch(content, after);
  }

  /** The body of the loop for one match: the text between `lastIndex` and
      the match, if any, then the match as a link. */
  method PushMatch(content: string, lastIndex: nat, found: Match, parts: seq<Part>) returns (pushed: seq<Part>)
    requires lastIndex <= found.start && IsMatch(content, found)
    ensures pushed == parts + (Before(content, lastIndex, found) + [Link(CaptionOf(content, found), UrlOf(content, found))])
  {
    pushed := parts;
    if found.start > lastIndex {
      pushed := pushed + [Text(content[lastIndex..found.start])];
    }
    pushed := pushed + [Link(CaptionOf(content, found), UrlOf(content, found))];
  }

  /** One turn of the loop keeps the segments pushed so far, followed by
      the segments still to come, equal to all the segments. */
  lemma RenderStep(s: string, from: nat, m: Match, prior: seq<Part>, parts: seq<Part>, rest: seq<Part>, all: seq<Part>)
    returns (next: seq<Part>)
    requires from <= |s| && NextMatch(s, from) == Some(m)
    requires rest == Rest(s, from) && prior + rest == all
    requires parts == prior + (Before(s, from, m) + [Link(CaptionOf(s, m), UrlOf(s, m))])
    ensures next == Rest(s, m.paren + 1) && parts + next == all
  {
    next := Rest(s, m.paren + 1);
    TokenizeFound(s, from, m);
    AppendStep(prior, Before(s, from, m) + [Link(CaptionOf(s, m), UrlOf(s, m))], next, rest, all);
  }

  lemma AppendStep<T>(prior: seq<T>, step: seq<T>, rest: seq<T>, here: seq<T>, all: seq<T>)
    requires prior + here == all && here == step + rest
    ensures prior + step + rest == all
  {
  }

  /** When no match is left, the segments still to come are the rest of
      the text, if any. */
  lemma RenderDone(s: string, from: nat, parts: seq<Part>, rest: seq<Part>, all: seq<Part>)
    requires from <= |s| && NextMatch(s, from).None?
    requires rest == Rest(s, from) && parts + rest == all
    ensures all == parts + if from < |s| then [Text(s[from..])] else []
  {
    TokenizeDone(s, from);
  }
}
