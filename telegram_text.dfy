/** The text side of Telegram notifications (backend/users/services.py):
    the HTML-to-Telegram-HTML converter, a chain of regular-expression and
    literal rewrites; the length limit and plain-text fallback of one send;
    and the bookkeeping of a broadcast. Each regular expression is read as a
    matcher at one position, and `Rewrite` scans left to right as `re.sub`
    and `str.replace` do. */
module TelegramText {
  import opened Common

  // ---------------------------------------------------------------------
  // Matching at one position

  /** A match at the start of the remaining text: how many characters it
      covers and what replaces them. */
  datatype Match = Match(len: nat, rep: string)

  /** The patterns the converter uses. */
  datatype Rule =
    | Literal(alts: seq<string>, ignoreCase: bool, rep: string)
      // literal alternatives, tried in order: `str.replace` or `re.sub` of `(a|b)`
    | Link       // <a\s+href=["']([^"']+)["']\s*>([^<]+)</a>, rewritten to <a href="\1">\2</a>
    | ListItem   // <li[^>]*>, replaced by a bullet
    | Block      // </?(p|div|span|h[1-6]|ul|ol)[^>]*>, replaced by a newline
    | BlockFixed // the same, with the tag name required to end there
    | Newlines   // \n{3,}, replaced by two newlines
    | AnyTag     // <[^>]+>, removed

  datatype CharClass = Exactly(c: char) | QuoteMark | NonSpace

  predicate InClass(c: char, k: CharClass) {
    match k
    case Exactly(d) => c == d
    case QuoteMark => c == '"' || c == '\''
    case NonSpace => !IsSpace(c)
  }

  /** The first index from `i` on whose character is in class `k`. */
  function FirstFrom(s: string, k: CharClass, i: nat): (j: Option<nat>)
    ensures j.Some? ==> i <= j.value < |s| && InClass(s[j.value], k)
    ensures j.Some? ==> forall m :: i <= m < j.value ==> !InClass(s[m], k)
    ensures j.None? ==> forall m :: i <= m < |s| ==> !InClass(s[m], k)
    decreases |s| - i
  {
    if i >= |s| then None
    else if InClass(s[i], k) then Some(i)
    else FirstFrom(s, k, i + 1)
  }

  /** `s` starts with the lower-case text `a`, ignoring ASCII case. */
  predicate StartsWithCI(s: string, a: string) {
    |a| <= |s| && Lower(s[..|a|]) == a
  }

  /** The first of the alternatives that the text starts with. */
  function MatchLiteral(s: string, alts: seq<string>, ignoreCase: bool, rep: string): (m: Option<Match>)
    ensures m.Some? ==> 0 < m.value.len <= |s| && m.value.rep == rep
    ensures m.Some? ==> (exists k :: 0 <= k < |alts| && alts[k] != [] && |alts[k]| == m.value.len &&
                                     (if ignoreCase then StartsWithCI(s, alts[k]) else StartsWith(s, alts[k])))
    decreases |alts|
  {
    if alts == [] then None
    else if alts[0] != [] && (if ignoreCase then StartsWithCI(s, alts[0]) else StartsWith(s, alts[0])) then
      Some(Match(|alts[0]|, rep))
    else
      var m := MatchLiteral(s, alts[1..], ignoreCase, rep);
      if m.Some? then
        ghost var k :| 0 <= k < |alts[1..]| && alts[1..][k] != [] && |alts[1..][k]| == m.value.len &&
          (if ignoreCase then StartsWithCI(s, alts[1..][k]) else StartsWith(s, alts[1..][k]));
        assert alts[k + 1] == alts[1..][k];
        m
      else m
  }

  /** The length of the tag name the block pattern accepts at the start of
      `t`: p, div, span, h1-h6, ul or ol, tried in that order, ignoring
      case. */
  function BlockName(t: string): (n: Option<nat>)
    ensures n.Some? ==> 0 < n.value <= |t|
  {
    if StartsWithCI(t, "p") then Some(1)
    else if StartsWithCI(t, "div") then Some(3)
    else if StartsWithCI(t, "span") then Some(4)
    else if |t| >= 2 && LowerChar(t[0]) == 'h' && '1' <= t[1] <= '6' then Some(2)
    else if StartsWithCI(t, "ul") then Some(2)
    else if StartsWithCI(t, "ol") then Some(2)
    else None
  }

  /** `</?(p|div|span|h[1-6]|ul|ol)[^>]*>`: the optional slash, a block
      name, then everything up to the first `>`. With `fixed`, the name
      must be followed by whitespace, `/` or `>`. */
  function MatchBlock(s: string, fixed: bool): (m: Option<Match>)
    ensures m.Some? ==> 0 < m.value.len <= |s| && s[0] == '<' && m.value.rep == "\n"
  {
    if s == [] || s[0] != '<' then None
    else
      var j := if |s| > 1 && s[1] == '/' then 2 else 1;
      match BlockName(s[j..])
      case None => None
      case Some(n) =>
        if fixed && !(j + n < |s| && (IsSpace(s[j + n]) || s[j + n] == '/' || s[j + n] == '>')) then None
        else match FirstFrom(s, Exactly('>'), j + n)
          case None => None
          case Some(e) => Some(Match(e + 1, "\n"))
  }

  /** `<li[^>]*>`: "<li" in any case, then everything up to the first `>`. */
  function MatchListItem(s: string): (m: Option<Match>)
    ensures m.Some? ==> 0 < m.value.len <= |s| && s[0] == '<' && m.value.rep == "• "
  {
    if !StartsWithCI(s, "<li") then None
    else match FirstFrom(s, Exactly('>'), 3)
      case None => None
      case Some(e) => Some(Match(e + 1, "• "))
  }

  /** `<a\s+href=["']([^"']+)["']\s*>([^<]+)</a>`, ignoring case: the
      address runs to the first quote mark of either kind and the link
      text to the first `<`; the link is rewritten with double quotes. */
  function MatchLink(s: string): (m: Option<Match>)
    ensures m.Some? ==> 0 < m.value.len <= |s| && s[0] == '<'
  {
    if !StartsWithCI(s, "<a") then None
    else match FirstFrom(s, NonSpace, 2)
      case None => None
      case Some(h) =>
        if h == 2 || !StartsWithCI(s[h..], "href=") || h + 5 >= |s| || !InClass(s[h + 5], QuoteMark) then None
        else match FirstFrom(s, QuoteMark, h + 6)
          case None => None
          case Some(qe) =>
            if qe == h + 6 then None
            else match FirstFrom(s, NonSpace, qe + 1)
              case None => None
              case Some(g) =>
                if s[g] != '>' then None
                else match FirstFrom(s, Exactly('<'), g + 1)
                  case None => None
                  case Some(lt) =>
                    if lt == g + 1 || !StartsWithCI(s[lt..], "</a>") then None
                    else Some(Match(lt + 4, "<a href=\"" + s[h + 6..qe] + "\">" + s[g + 1..lt] + "</a>"))
  }

  /** The number of newlines the text starts with. */
  function LeadingNewlines(s: string): (n: nat)
    ensures n <= |s| && (forall i :: 0 <= i < n ==> s[i] == '\n') && (n < |s| ==> s[n] != '\n')
  {
    if s != [] && s[0] == '\n' then 1 + LeadingNewlines(s[1..]) else 0
  }

  /** `<[^>]+>`: a `<`, at least one other character, up to the first `>`. */
  function MatchAnyTag(s: string): (m: Option<Match>)
    ensures m.Some? ==> 0 < m.value.len <= |s| && s[0] == '<' && m.value.rep == ""
  {
    if s == [] || s[0] != '<' then None
    else match FirstFrom(s, Exactly('>'), 1)
      case None => None
      case Some(e) => if e >= 2 then Some(Match(e + 1, "")) else None
  }

  function MatchAt(r: Rule, s: string): (m: Option<Match>)
    ensures m.Some? ==> 0 < m.value.len <= |s|
  {
    match r
    case Literal(alts, ignoreCase, rep) => MatchLiteral(s, alts, ignoreCase, rep)
    case Link => MatchLink(s)
    case ListItem => MatchListItem(s)
    case Block => MatchBlock(s, false)
    case BlockFixed => MatchBlock(s, true)
    case Newlines =>
      var n := LeadingNewlines(s);
      if n >= 3 then Some(Match(n, "\n\n")) else None
    case AnyTag => MatchAnyTag(s)
  }

  /** Every match of the rule, scanning left to right, replaced; the text
      between matches is kept. */
  function Rewrite(s: string, r: Rule): string
    decreases |s|
  {
    if s == [] then []
    else match MatchAt(r, s)
      case Some(m) => m.rep + Rewrite(s[m.len..], r)
      case None => [s[0]] + Rewrite(s[1..], r)
  }

  lemma RewriteCopies(s: string, r: Rule)
    requires s != [] && MatchAt(r, s).None?
    ensures Rewrite(s, r) == [s[0]] + Rewrite(s[1..], r)
  {
  }

  lemma RewriteReplaces(s: string, r: Rule, m: Match)
    requires MatchAt(r, s) == Some(m)
    ensures Rewrite(s, r) == m.rep + Rewrite(s[m.len..], r)
  {
  }

  function ApplyAll(s: string, rules: seq<Rule>): string
    decreases |rules|
  {
    if rules == [] then s else ApplyAll(Rewrite(s, rules[0]), rules[1..])
  }

  // ---------------------------------------------------------------------
  // The converter

  const BreakPlain := Literal(["<br>"], false, "\n")
  const BreakSlash := Literal(["<br/>"], false, "\n")
  const BreakSpaced := Literal(["<br />"], false, "\n")
  const BoldOpen := Literal(["<strong>", "<b>"], true, "<b>")
  const BoldClose := Literal(["</strong>", "</b>"], true, "</b>")
  const ItalicOpen := Literal(["<em>", "<i>"], true, "<i>")
  const ItalicClose := Literal(["</em>", "</i>"], true, "</i>")
  const CloseListItem := Literal(["</li>"], true, "\n")

  /** A supported tag, written in lower case whatever its case was. */
  function KeepTag(tag: string): Rule {
    Literal([tag], true, tag)
  }

  const PreName := "pre"
  const PreOpen := "<pre>"
  const PreClose := "</pre>"

  /** The rewrites of line breaks, formatting, supported tags, links and
      list items, in the converter's order. */
  const TagRewrites: seq<Rule> :=
    [BreakPlain, BreakSlash, BreakSpaced, BoldOpen, BoldClose, ItalicOpen, ItalicClose,
     KeepTag("<u>"), KeepTag("</u>"), KeepTag("<s>"), KeepTag("</s>"),
     KeepTag("<code>"), KeepTag("</code>"), KeepTag(PreOpen), KeepTag(PreClose),
     Link, ListItem, CloseListItem]

  /** The rewrites up to the newline clean-up, as the converter has them:
      the block pattern last. */
  const BeforeCollapse: seq<Rule> := TagRewrites + [Block]

  /** The same with the block pattern corrected (see `BlockFixed`). */
  const BeforeCollapseFixed: seq<Rule> := TagRewrites + [BlockFixed]

  /** The entity replacements, after the clean-up, in order. */
  const Entities: seq<Rule> :=
    [Literal(["&nbsp;"], false, " "), Literal(["&amp;"], false, "&"), Literal(["&lt;"], false, "<"),
     Literal(["&gt;"], false, ">"), Literal(["&quot;"], false, "\""), Literal(["&#39;"], false, "'")]

  /** The converter around a list of rewrites: they are applied, runs of
      newlines collapsed, entities decoded and the ends stripped; a
      missing text is the empty one. */
  function Convert(html: string, before: seq<Rule>): (r: string)
    ensures html == [] ==> r == []
    ensures Unpadded(r)
  {
    if html == [] then []
    else Strip(ApplyAll(Rewrite(ApplyAll(html, before), Newlines), Entities))
  }

  /** html_to_telegram_html as written. */
  function HtmlToTelegram(html: string): (r: string)
    ensures html == [] ==> r == []
    ensures Unpadded(r)
  {
    Convert(html, BeforeCollapse)
  }

  /** html_to_telegram_html with the corrected block pattern. */
  function HtmlToTelegramFixed(html: string): (r: string)
    ensures html == [] ==> r == []
    ensures Unpadded(r)
  {
    Convert(html, BeforeCollapseFixed)
  }

  // ---------------------------------------------------------------------
  // No run of three newlines survives

  predicate NoTripleNewline(s: string) {
    forall i :: 0 <= i < |s| - 2 ==> !(s[i] == '\n' && s[i + 1] == '\n' && s[i + 2] == '\n')
  }

  predicate NoNewline(s: string) {
    forall i :: 0 <= i < |s| ==> s[i] != '\n'
  }

  /** The text starts with two newlines. */
  predicate TwoNewlinesFirst(s: string) {
    |s| >= 2 && s[0] == '\n' && s[1] == '\n'
  }

  lemma ConsNoTriple(c: char, t: string)
    requires NoTripleNewline(t) && (c == '\n' ==> !TwoNewlinesFirst(t))
    ensures NoTripleNewline([c] + t)
  {
    var s := [c] + t;
    forall i | 0 <= i < |s| - 2 ensures !(s[i] == '\n' && s[i + 1] == '\n' && s[i + 2] == '\n') {
      if i > 0 {
        assert s[i] == t[i - 1] && s[i + 1] == t[i] && s[i + 2] == t[i + 1];
      }
    }
  }

  lemma NoNewlinePrefix(p: string, t: string)
    requires NoNewline(p) && NoTripleNewline(t)
    ensures NoTripleNewline(p + t)
  {
    var s := p + t;
    forall i | 0 <= i < |s| - 2 ensures !(s[i] == '\n' && s[i + 1] == '\n' && s[i + 2] == '\n') {
      if i >= |p| {
        assert s[i] == t[i - |p|] && s[i + 1] == t[i - |p| + 1] && s[i + 2] == t[i - |p| + 2];
      } else if i + 1 >= |p| {
        assert s[i] == p[i];
      } else {
        assert s[i + 1] == p[i + 1];
      }
    }
  }

  lemma SliceNoTriple(s: string, a: nat, b: nat)
    requires a <= b <= |s| && NoTripleNewline(s)
    ensures NoTripleNewline(s[a..b])
  {
    var t := s[a..b];
    forall i | 0 <= i < |t| - 2 ensures !(t[i] == '\n' && t[i + 1] == '\n' && t[i + 2] == '\n') {
      assert t[i] == s[a + i] && t[i + 1] == s[a + i + 1] && t[i + 2] == s[a + i + 2];
    }
  }

  /** A literal rule none of whose alternatives starts with a newline and
      whose replacement is some text without newlines. */
  predicate NewlineSafe(r: Rule) {
    r.Literal? && r.rep != [] && NoNewline(r.rep) &&
    forall k :: 0 <= k < |r.alts| && r.alts[k] != [] ==> r.alts[k][0] != '\n'
  }

  lemma SafeRuleSkipsNewline(r: Rule, s: string)
    requires NewlineSafe(r) && s != [] && s[0] == '\n'
    ensures MatchAt(r, s).None?
  {
  }

  /** A newline-safe rewrite of a text that does not start with a newline
      does not start with one either. */
  lemma SafeRuleHead(r: Rule, s: string)
    requires NewlineSafe(r) && s != [] && s[0] != '\n'
    ensures Rewrite(s, r) != [] && Rewrite(s, r)[0] != '\n'
  {
    match MatchAt(r, s)
    case Some(m) =>
      assert Rewrite(s, r) == r.rep + Rewrite(s[m.len..], r);
    case None =>
  }

  lemma {:induction false} SafeRuleKeepsNoTriple(r: Rule, s: string)
    requires NewlineSafe(r) && NoTripleNewline(s)
    ensures NoTripleNewline(Rewrite(s, r))
    decreases |s|
  {
    if s != [] {
      match MatchAt(r, s)
      case Some(m) =>
        SliceNoTriple(s, m.len, |s|);
        SafeRuleKeepsNoTriple(r, s[m.len..]);
        assert m.rep == r.rep;
        NoNewlinePrefix(m.rep, Rewrite(s[m.len..], r));
      case None =>
        var t := s[1..];
        SliceNoTriple(s, 1, |s|);
        SafeRuleKeepsNoTriple(r, t);
        if s[0] == '\n' && t != [] {
          if t[0] != '\n' {
            SafeRuleHead(r, t);
          } else {
            SafeRuleSkipsNewline(r, t);
            assert Rewrite(t, r) == [t[0]] + Rewrite(t[1..], r);
            if |t| >= 2 {
              assert t[1] == s[2];
              SafeRuleHead(r, t[1..]);
            }
          }
        }
        ConsNoTriple(s[0], Rewrite(t, r));
    }
  }

  lemma {:induction false} SafeRulesKeepNoTriple(rules: seq<Rule>, s: string)
    requires forall k :: 0 <= k < |rules| ==> NewlineSafe(rules[k])
    requires NoTripleNewline(s)
    ensures NoTripleNewline(ApplyAll(s, rules))
    decreases |rules|
  {
    if rules != [] {
      SafeRuleKeepsNoTriple(rules[0], s);
      SafeRulesKeepNoTriple(rules[1..], Rewrite(s, rules[0]));
    }
  }

  lemma EntitiesAreSafe()
    ensures forall k :: 0 <= k < |Entities| ==> NewlineSafe(Entities[k])
  {
  }

  /** The clean-up of a text that does not start with a newline does not
      start with one. */
  lemma CollapseHead(s: string)
    requires s != [] && s[0] != '\n'
    ensures Rewrite(s, Newlines) == [s[0]] + Rewrite(s[1..], Newlines)
  {
  }

  lemma {:induction false} CollapseLeavesNoTriple(s: string)
    ensures NoTripleNewline(Rewrite(s, Newlines))
    decreases |s|
  {
    if s != [] {
      var n := LeadingNewlines(s);
      if n >= 3 {
        var rest := s[n..];
        CollapseLeavesNoTriple(rest);
        var tail := Rewrite(rest, Newlines);
        if rest != [] {
          CollapseHead(rest);
        }
        ConsNoTriple('\n', tail);
        ConsNoTriple('\n', "\n" + tail);
        assert Rewrite(s, Newlines) == "\n\n" + tail;
      } else {
        var t := s[1..];
        CollapseLeavesNoTriple(t);
        if s[0] == '\n' && t != [] {
          if t[0] != '\n' {
            CollapseHead(t);
          } else {
            assert LeadingNewlines(t) < 3;
            assert Rewrite(t, Newlines) == [t[0]] + Rewrite(t[1..], Newlines);
            if |t| >= 2 {
              assert t[1] == s[2];
              CollapseHead(t[1..]);
            }
          }
        }
        ConsNoTriple(s[0], Rewrite(t, Newlines));
      }
    }
  }

  /** The converter's output never holds three newlines in a row, whatever
      rewrites come first: the clean-up comes after every rewrite that
      produces newlines, and the entity replacements and the strip cannot
      join newlines. */
  lemma ConvertHasNoTripleNewline(html: string, before: seq<Rule>)
    ensures NoTripleNewline(Convert(html, before))
  {
    if html != [] {
      var c := Rewrite(ApplyAll(html, before), Newlines);
      CollapseLeavesNoTriple(ApplyAll(html, before));
      EntitiesAreSafe();
      SafeRulesKeepNoTriple(Entities, c);
      var e := ApplyAll(c, Entities);
      StripIsSlice(e);
      var k := |e| - |TrimStart(e)|;
      SliceNoTriple(e, k, k + |Strip(e)|);
    }
  }

  /** Neither the converter as written nor the corrected one sends three
      newlines in a row. */
  lemma OutputHasNoTripleNewline(html: string)
    ensures NoTripleNewline(HtmlToTelegram(html))
    ensures NoTripleNewline(HtmlToTelegramFixed(html))
  {
    ConvertHasNoTripleNewline(html, BeforeCollapse);
    ConvertHasNoTripleNewline(html, BeforeCollapseFixed);
  }

  // ---------------------------------------------------------------------
  // What each rewrite does to one tag

  predicate NoChar(s: string, c: char) {
    forall i :: 0 <= i < |s| ==> s[i] != c
  }

  /** Every match of the rule starts with `c`. */
  ghost predicate StartsOnlyWith(r: Rule, c: char) {
    forall s :: MatchAt(r, s).Some? ==> s != [] && s[0] == c
  }

  lemma LiteralStartsOnlyWith(alts: seq<string>, ignoreCase: bool, rep: string, c: char)
    requires forall k :: 0 <= k < |alts| ==> alts[k] != [] && alts[k][0] == c
    requires !('a' <= c <= 'z')
    ensures StartsOnlyWith(Literal(alts, ignoreCase, rep), c)
  {
    forall s | MatchAt(Literal(alts, ignoreCase, rep), s).Some? ensures s != [] && s[0] == c {
      var m := MatchAt(Literal(alts, ignoreCase, rep), s).value;
      var k :| 0 <= k < |alts| && alts[k] != [] && |alts[k]| == m.len &&
        (if ignoreCase then StartsWithCI(s, alts[k]) else StartsWith(s, alts[k]));
      var a := alts[k];
      if ignoreCase {
        assert Lower(s[..|a|])[0] == LowerChar(s[0]);
      } else {
        assert s[..|a|][0] == s[0];
      }
    }
  }

  lemma TagRulesStartWithAngle()
    ensures StartsOnlyWith(Link, '<') && StartsOnlyWith(ListItem, '<')
    ensures StartsOnlyWith(Block, '<') && StartsOnlyWith(BlockFixed, '<') && StartsOnlyWith(AnyTag, '<')
  {
  }

  /** Text without the rule's first character is copied unchanged. */
  lemma {:induction false} RewritePassesOver(r: Rule, c: char, x: string, z: string)
    requires StartsOnlyWith(r, c) && NoChar(x, c)
    ensures Rewrite(x + z, r) == x + Rewrite(z, r)
    decreases |x|
  {
    if x != [] {
      PassOneChar(r, c, x, z);
      RewritePassesOver(r, c, x[1..], z);
      ConsAppend(x, Rewrite(z, r));
    } else {
      assert x + z == z;
    }
  }

  lemma PassOneChar(r: Rule, c: char, x: string, z: string)
    requires StartsOnlyWith(r, c) && x != [] && x[0] != c
    ensures Rewrite(x + z, r) == [x[0]] + Rewrite(x[1..] + z, r)
  {
    var s := x + z;
    assert s[0] == x[0];
    assert MatchAt(r, s).None?;
    RewriteCopies(s, r);
    assert s[1..] == x[1..] + z;
  }

  lemma ConsAppend(x: string, w: string)
    requires x != []
    ensures [x[0]] + (x[1..] + w) == x + w
  {
  }

  /** A match right after such text is replaced, and the scan goes on
      after it. */
  lemma RewriteReplacesAfter(r: Rule, c: char, x: string, t: string, y: string, rep: string)
    requires StartsOnlyWith(r, c) && NoChar(x, c)
    requires MatchAt(r, t + y) == Some(Match(|t|, rep))
    ensures Rewrite(x + t + y, r) == x + rep + Rewrite(y, r)
  {
    AppendAssoc(x, t, y);
    RewritePassesOver(r, c, x, t + y);
    RewriteReplaces(t + y, r, Match(|t|, rep));
    DropFront(t, y);
  }

  lemma AppendAssoc(x: string, t: string, y: string)
    ensures x + t + y == x + (t + y)
  {
  }

  lemma DropFront(t: string, y: string)
    ensures (t + y)[|t|..] == y
  {
  }

  lemma StartsWithCIOf(t: string, y: string, a: string)
    requires Lower(t) == a
    ensures StartsWithCI(t + y, a)
  {
    assert (t + y)[..|a|] == t;
  }

  lemma NotStartsWithCI(t: string, y: string, a: string, i: nat)
    requires i < |t| && i < |a| && LowerChar(t[i]) != a[i]
    ensures !StartsWithCI(t + y, a)
  {
    if |a| <= |t + y| {
      assert Lower((t + y)[..|a|])[i] == LowerChar(t[i]);
    }
  }

  /** The three line-break spellings become newlines. */
  lemma LineBreaksBecomeNewlines(x: string, y: string)
    requires NoChar(x, '<')
    ensures Rewrite(x + "<br>" + y, BreakPlain) == x + "\n" + Rewrite(y, BreakPlain)
    ensures Rewrite(x + "<br/>" + y, BreakSlash) == x + "\n" + Rewrite(y, BreakSlash)
    ensures Rewrite(x + "<br />" + y, BreakSpaced) == x + "\n" + Rewrite(y, BreakSpaced)
  {
    LiteralStartsOnlyWith(["<br>"], false, "\n", '<');
    LiteralStartsOnlyWith(["<br/>"], false, "\n", '<');
    LiteralStartsOnlyWith(["<br />"], false, "\n", '<');
    assert ("<br>" + y)[..4] == "<br>";
    assert ("<br/>" + y)[..5] == "<br/>";
    assert ("<br />" + y)[..6] == "<br />";
    RewriteReplacesAfter(BreakPlain, '<', x, "<br>", y, "\n");
    RewriteReplacesAfter(BreakSlash, '<', x, "<br/>", y, "\n");
    RewriteReplacesAfter(BreakSpaced, '<', x, "<br />", y, "\n");
  }

  /** A rule with two tag spellings that differ at position `i` replaces
      either spelling, in any case. */
  lemma TwoSpellingsReplaced(long: string, short: string, i: nat, rep: string, x: string, t: string, y: string)
    requires |long| > i && |short| > i && long[0] == '<' && short[0] == '<' && long[i] != short[i]
    requires Lower(t) == long || Lower(t) == short
    requires NoChar(x, '<')
    ensures Rewrite(x + t + y, Literal([long, short], true, rep)) == x + rep + Rewrite(y, Literal([long, short], true, rep))
  {
    var r := Literal([long, short], true, rep);
    LiteralStartsOnlyWith([long, short], true, rep, '<');
    if Lower(t) == long {
      StartsWithCIOf(t, y, long);
      FirstSpellingMatches(t + y, long, short, rep);
    } else {
      assert LowerChar(t[i]) == short[i];
      NotStartsWithCI(t, y, long, i);
      StartsWithCIOf(t, y, short);
      SecondSpellingMatches(t + y, long, short, rep);
    }
    RewriteReplacesAfter(r, '<', x, t, y, rep);
  }

  lemma FirstSpellingMatches(s: string, long: string, short: string, rep: string)
    requires long != [] && StartsWithCI(s, long)
    ensures MatchAt(Literal([long, short], true, rep), s) == Some(Match(|long|, rep))
  {
  }

  lemma SecondSpellingMatches(s: string, long: string, short: string, rep: string)
    requires short != [] && !StartsWithCI(s, long) && StartsWithCI(s, short)
    ensures MatchAt(Literal([long, short], true, rep), s) == Some(Match(|short|, rep))
  {
    assert [long, short][1..] == [short];
    assert MatchLiteral(s, [long, short], true, rep) == MatchLiteral(s, [short], true, rep);
  }

  /** `<strong>`/`<b>` and `<em>`/`<i>`, opening or closing, in any case,
      become `<b>` and `<i>`. */
  lemma FormattingTagsNormalised(x: string, t: string, y: string)
    requires NoChar(x, '<')
    ensures Lower(t) == "<strong>" || Lower(t) == "<b>" ==>
      Rewrite(x + t + y, BoldOpen) == x + "<b>" + Rewrite(y, BoldOpen)
    ensures Lower(t) == "</strong>" || Lower(t) == "</b>" ==>
      Rewrite(x + t + y, BoldClose) == x + "</b>" + Rewrite(y, BoldClose)
    ensures Lower(t) == "<em>" || Lower(t) == "<i>" ==>
      Rewrite(x + t + y, ItalicOpen) == x + "<i>" + Rewrite(y, ItalicOpen)
    ensures Lower(t) == "</em>" || Lower(t) == "</i>" ==>
      Rewrite(x + t + y, ItalicClose) == x + "</i>" + Rewrite(y, ItalicClose)
  {
    if Lower(t) == "<strong>" || Lower(t) == "<b>" {
      TwoSpellingsReplaced("<strong>", "<b>", 1, "<b>", x, t, y);
    }
    if Lower(t) == "</strong>" || Lower(t) == "</b>" {
      TwoSpellingsReplaced("</strong>", "</b>", 2, "</b>", x, t, y);
    }
    if Lower(t) == "<em>" || Lower(t) == "<i>" {
      TwoSpellingsReplaced("<em>", "<i>", 1, "<i>", x, t, y);
    }
    if Lower(t) == "</em>" || Lower(t) == "</i>" {
      TwoSpellingsReplaced("</em>", "</i>", 2, "</i>", x, t, y);
    }
  }

  /** `<li ...>` in any case, whatever its attributes, becomes a bullet. */
  lemma ListItemsBecomeBullets(x: string, t: string, attrs: string, y: string)
    requires NoChar(x, '<') && NoChar(attrs, '>') && Lower(t) == "<li"
    ensures Rewrite(x + (t + attrs + ">") + y, ListItem) == x + "• " + Rewrite(y, ListItem)
  {
    ListItemMatch(t, attrs, y);
    TagRulesStartWithAngle();
    RewriteReplacesAfter(ListItem, '<', x, t + attrs + ">", y, "• ");
  }

  /** `</li>` in any case becomes a newline. */
  lemma ListItemEndsBecomeNewlines(x: string, t: string, y: string)
    requires NoChar(x, '<') && Lower(t) == "</li>"
    ensures Rewrite(x + t + y, CloseListItem) == x + "\n" + Rewrite(y, CloseListItem)
  {
    LiteralStartsOnlyWith(["</li>"], true, "\n", '<');
    StartsWithCIOf(t, y, "</li>");
    OnlySpellingMatches(t + y, "</li>", true, "\n");
    RewriteReplacesAfter(CloseListItem, '<', x, t, y, "\n");
  }

  lemma OnlySpellingMatches(s: string, a: string, ignoreCase: bool, rep: string)
    requires a != [] && (if ignoreCase then StartsWithCI(s, a) else StartsWith(s, a))
    ensures MatchAt(Literal([a], ignoreCase, rep), s) == Some(Match(|a|, rep))
  {
  }

  lemma ListItemMatch(t: string, attrs: string, y: string)
    requires Lower(t) == "<li" && NoChar(attrs, '>')
    ensures MatchListItem(t + attrs + ">" + y) == Some(Match(|t| + |attrs| + 1, "• "))
  {
    TagOpening(t, attrs, y, "<li");
    TagClosingBracket(t, attrs, y);
  }

  /** A tag `t`, attributes and `>`: the text starts with `t`. */
  lemma TagOpening(t: string, attrs: string, y: string, a: string)
    requires Lower(t) == a
    ensures StartsWithCI(t + attrs + ">" + y, a)
  {
    assert (t + attrs + ">" + y)[..|a|] == t;
  }

  /** ... and the first `>` after `t` is the one closing the attributes. */
  lemma TagClosingBracket(t: string, attrs: string, y: string)
    requires NoChar(attrs, '>')
    ensures FirstFrom(t + attrs + ">" + y, Exactly('>'), |t|) == Some(|t| + |attrs|)
  {
    var s := t + attrs + ">" + y;
    forall m | |t| <= m < |t| + |attrs| ensures s[m] != '>' {
      assert s[m] == attrs[m - |t|];
    }
    FirstFromIs(s, Exactly('>'), |t|, |t| + |attrs|);
  }

  lemma FirstFromIs(s: string, k: CharClass, i: nat, j: nat)
    requires i <= j < |s| && InClass(s[j], k) && forall m :: i <= m < j ==> !InClass(s[m], k)
    ensures FirstFrom(s, k, i) == Some(j)
  {
  }

  // ---------------------------------------------------------------------
  // Entities and length limits

  /** Entities are decoded one kind after the other, `&amp;` first, so a
      doubly escaped `<` comes out as `<`. */
  lemma EntitiesDecodeInOrder()
    ensures ApplyAll("&amp;lt;", Entities) == "<"
  {
    var s := "&amp;lt;";
    NbspLeavesEscapedLt();
    assert ApplyAll(s, Entities) == ApplyAll(s, Entities[1..]);
    AmpDecodedFirst();
    assert ApplyAll(s, Entities[1..]) == ApplyAll("&lt;", Entities[2..]);
    LtDecoded();
    assert ApplyAll("&lt;", Entities[2..]) == ApplyAll("<", Entities[3..]);
    LaterEntitiesKeepLt();
  }

  lemma NbspLeavesEscapedLt()
    ensures Rewrite("&amp;lt;", Entities[0]) == "&amp;lt;"
  {
    var s := "&amp;lt;";
    EntitiesStartWithAmpersand();
    assert MatchAt(Entities[0], s).None? by {
      assert s[..6] != "&nbsp;" by { assert s[1] == 'a'; }
    }
    assert NoChar(s[1..], '&');
    CopiedWhole(Entities[0], '&', s);
  }

  /** A text whose only possible match position, the first, does not
      match is copied unchanged. */
  lemma CopiedWhole(r: Rule, c: char, s: string)
    requires StartsOnlyWith(r, c) && s != [] && MatchAt(r, s).None? && NoChar(s[1..], c)
    ensures Rewrite(s, r) == s
  {
    RewriteCopies(s, r);
    RewritePassesOver(r, c, s[1..], "");
    assert s[1..] + "" == s[1..];
  }

  lemma AmpDecodedFirst()
    ensures Rewrite("&amp;lt;", Entities[1]) == "&lt;"
  {
    var s := "&amp;lt;";
    EntitiesStartWithAmpersand();
    assert s[..5] == "&amp;";
    OnlySpellingMatches(s, "&amp;", false, "&");
    RewriteReplaces(s, Entities[1], Match(5, "&"));
    RewritePassesOver(Entities[1], '&', "lt;", "");
  }

  lemma LtDecoded()
    ensures Rewrite("&lt;", Entities[2]) == "<"
  {
    OnlySpellingMatches("&lt;", "&lt;", false, "<");
    RewriteReplaces("&lt;", Entities[2], Match(4, "<"));
  }

  lemma LaterEntitiesKeepLt()
    ensures ApplyAll("<", Entities[3..]) == "<"
  {
    EntitiesStartWithAmpersand();
    RulesPassOver(Entities[3..], '&', "<");
  }

  /** Rules that all start with `c` leave a text without `c` as it is. */
  lemma {:induction false} RulesPassOver(rules: seq<Rule>, c: char, s: string)
    requires forall k :: 0 <= k < |rules| ==> StartsOnlyWith(rules[k], c)
    requires NoChar(s, c)
    ensures ApplyAll(s, rules) == s
    decreases |rules|
  {
    if rules != [] {
      RewritePassesOver(rules[0], c, s, "");
      assert s + "" == s;
      RulesPassOver(rules[1..], c, s);
    }
  }

  lemma EntitiesStartWithAmpersand()
    ensures forall k :: 0 <= k < |Entities| ==> StartsOnlyWith(Entities[k], '&')
  {
    forall k | 0 <= k < |Entities| ensures StartsOnlyWith(Entities[k], '&') {
      var e := Entities[k];
      assert e.Literal? && !e.ignoreCase && |e.alts| == 1 && e.alts[0] != [] && e.alts[0][0] == '&';
      LiteralStartsOnlyWith(e.alts, false, e.rep, '&');
    }
  }

  // ---------------------------------------------------------------------
  // Block tags, and the <pre> tag they swallow

  /** The names `p|div|span|h[1-6]|ul|ol` of the block pattern. */
  predicate IsBlockName(l: string) {
    l == "p" || l == "div" || l == "span" || (|l| == 2 && l[0] == 'h' && '1' <= l[1] <= '6') || l == "ul" || l == "ol"
  }

  /** The names of the tags the converter means to keep, in lower case. */
  const SupportedNames: seq<string> := ["b", "i", "u", "s", "code", "pre"]

  predicate LowerLetters(s: string) {
    forall i :: 0 <= i < |s| ==> 'a' <= s[i] <= 'z'
  }

  /** A case-insensitive prefix test, character by character. */
  lemma StartsWithCIChars(t: string, a: string)
    ensures StartsWithCI(t, a) <==> |a| <= |t| && forall i :: 0 <= i < |a| ==> LowerChar(t[i]) == a[i]
  {
    if |a| <= |t| && forall i :: 0 <= i < |a| ==> LowerChar(t[i]) == a[i] {
      assert Lower(t[..|a|]) == a;
    }
  }

  /** A name whose lower-case form is made of letters has no `<`, `/` or `>`. */
  lemma LettersHaveNoMarkup(name: string)
    requires LowerLetters(Lower(name))
    ensures NoChar(name, '<') && NoChar(name, '/') && NoChar(name, '>')
  {
    forall i | 0 <= i < |name| ensures 'a' <= LowerChar(name[i]) <= 'z' {
      assert Lower(name)[i] == LowerChar(name[i]);
    }
  }

  lemma BlockNameP(t: string)
    requires |t| >= 1 && LowerChar(t[0]) == 'p'
    ensures BlockName(t) == Some(1)
  {
    StartsWithCIChars(t, "p");
  }

  lemma BlockNameDiv(t: string)
    requires |t| >= 3 && LowerChar(t[0]) == 'd' && LowerChar(t[1]) == 'i' && LowerChar(t[2]) == 'v'
    ensures BlockName(t) == Some(3)
  {
    StartsWithCIChars(t, "p");
    StartsWithCIChars(t, "div");
  }

  lemma BlockNameSpan(t: string)
    requires |t| >= 4 && LowerChar(t[0]) == 's' && LowerChar(t[1]) == 'p'
    requires LowerChar(t[2]) == 'a' && LowerChar(t[3]) == 'n'
    ensures BlockName(t) == Some(4)
  {
    StartsWithCIChars(t, "p");
    StartsWithCIChars(t, "div");
    StartsWithCIChars(t, "span");
  }

  lemma BlockNameHeading(t: string)
    requires |t| >= 2 && LowerChar(t[0]) == 'h' && '1' <= LowerChar(t[1]) <= '6'
    ensures BlockName(t) == Some(2)
  {
    StartsWithCIChars(t, "p");
    StartsWithCIChars(t, "div");
    StartsWithCIChars(t, "span");
  }

  /** The two list names, `ul` and `ol`. */
  lemma BlockNameList(t: string)
    requires |t| >= 2 && (LowerChar(t[0]) == 'u' || LowerChar(t[0]) == 'o') && LowerChar(t[1]) == 'l'
    ensures BlockName(t) == Some(2)
  {
    StartsWithCIChars(t, "p");
    StartsWithCIChars(t, "div");
    StartsWithCIChars(t, "span");
    StartsWithCIChars(t, "ul");
    StartsWithCIChars(t, "ol");
  }

  /** Each block name is recognised, in any case, whatever follows it. */
  lemma BlockNameOf(name: string, rest: string)
    requires IsBlockName(Lower(name))
    ensures BlockName(name + rest) == Some(|name|)
  {
    LowerPrefix(name, rest);
    BlockNameFrom(Lower(name), name + rest);
  }

  lemma BlockNameFrom(l: string, t: string)
    requires IsBlockName(l) && |l| <= |t| && forall i :: 0 <= i < |l| ==> LowerChar(t[i]) == l[i]
    ensures BlockName(t) == Some(|l|)
  {
    if l == "p" {
      assert LowerChar(t[0]) == l[0];
      BlockNameP(t);
    } else if l == "div" {
      assert LowerChar(t[0]) == l[0] && LowerChar(t[1]) == l[1] && LowerChar(t[2]) == l[2];
      BlockNameDiv(t);
    } else if l == "span" {
      assert LowerChar(t[0]) == l[0] && LowerChar(t[1]) == l[1];
      assert LowerChar(t[2]) == l[2] && LowerChar(t[3]) == l[3];
      BlockNameSpan(t);
    } else if l == "ul" || l == "ol" {
      assert LowerChar(t[0]) == l[0] && LowerChar(t[1]) == l[1];
      BlockNameList(t);
    } else {
      assert LowerChar(t[0]) == l[0] && LowerChar(t[1]) == l[1];
      BlockNameHeading(t);
    }
  }

  lemma LowerPrefix(name: string, rest: string)
    ensures forall i :: 0 <= i < |name| ==> LowerChar((name + rest)[i]) == Lower(name)[i]
  {
  }

  /** No supported name is a block name, except that `pre` starts with `p`. */
  lemma SupportedNameNotBlock(name: string, rest: string)
    requires Lower(name) in SupportedNames && rest != [] && rest[0] == '>'
    ensures var n := BlockName(name + rest); n.None? || (n == Some(1) && Lower(name) == "pre")
  {
    var t := name + rest;
    var l := Lower(name);
    forall i | 0 <= i < |name| ensures LowerChar(t[i]) == l[i] {
      assert t[i] == name[i];
    }
    assert t[|name|] == '>';
    if l == "pre" {
      BlockNameP(t);
    } else {
      StartsWithCIChars(t, "p");
      StartsWithCIChars(t, "div");
      StartsWithCIChars(t, "span");
      StartsWithCIChars(t, "ul");
      StartsWithCIChars(t, "ol");
    }
  }

  /** The slash of a closing tag is skipped, and nothing else is. */
  lemma SlashSkipped(slash: string, name: string, rest: string)
    requires slash == "" || slash == "/"
    requires name != [] && 'a' <= LowerChar(name[0]) <= 'z'
    ensures var s := "<" + slash + name + rest;
      (if |s| > 1 && s[1] == '/' then 2 else 1) == 1 + |slash| && s[1 + |slash|..] == name + rest
  {
    var s := "<" + slash + name + rest;
    assert s == ("<" + slash) + (name + rest);
    assert s[1] == if slash == "/" then '/' else name[0];
  }

  /** What the block pattern does once the slash and name are known. */
  lemma MatchBlockAt(s: string, fixed: bool, j: nat, n: nat, e: nat)
    requires s != [] && s[0] == '<' && j == (if |s| > 1 && s[1] == '/' then 2 else 1)
    requires BlockName(s[j..]) == Some(n) && FirstFrom(s, Exactly('>'), j + n) == Some(e)
    requires fixed ==> j + n < |s| && (IsSpace(s[j + n]) || s[j + n] == '/' || s[j + n] == '>')
    ensures MatchBlock(s, fixed) == Some(Match(e + 1, "\n"))
  {
  }

  /** An opening or closing block tag, with any attributes, is matched
      whole; with `fixed`, when the attributes are empty or start with
      whitespace or `/`. */
  lemma BlockTagMatch(slash: string, name: string, attrs: string, y: string, fixed: bool)
    requires slash == "" || slash == "/"
    requires IsBlockName(Lower(name)) && NoChar(attrs, '>')
    requires fixed ==> attrs == [] || IsSpace(attrs[0]) || attrs[0] == '/'
    ensures MatchBlock("<" + slash + name + attrs + ">" + y, fixed) ==
      Some(Match(|"<" + slash + name + attrs + ">"|, "\n"))
  {
    var s := "<" + slash + name + attrs + ">" + y;
    var j := 1 + |slash|;
    BlockTagName(slash, name, attrs, y);
    BlockTagBracket(slash, name, attrs, y);
    MatchBlockAt(s, fixed, j, |name|, j + |name| + |attrs|);
  }

  /** The slash and the name of a block tag are read as such. */
  lemma BlockTagName(slash: string, name: string, attrs: string, y: string)
    requires slash == "" || slash == "/"
    requires IsBlockName(Lower(name))
    ensures var s := "<" + slash + name + attrs + ">" + y; var j := 1 + |slash|;
      (if |s| > 1 && s[1] == '/' then 2 else 1) == j && BlockName(s[j..]) == Some(|name|) &&
      s[j + |name|] == (if attrs == [] then '>' else attrs[0])
  {
    var s := "<" + slash + name + attrs + ">" + y;
    assert Lower(name)[0] == LowerChar(name[0]);
    SlashSkipped(slash, name, attrs + ">" + y);
    assert s == "<" + slash + name + (attrs + ">" + y);
    BlockNameOf(name, attrs + ">" + y);
  }

  /** The first `>` after the name is the one that closes the tag. */
  lemma BlockTagBracket(slash: string, name: string, attrs: string, y: string)
    requires NoChar(attrs, '>')
    ensures var s := "<" + slash + name + attrs + ">" + y; var j := 1 + |slash|;
      FirstFrom(s, Exactly('>'), j + |name|) == Some(j + |name| + |attrs|)
  {
    TagClosingBracket("<" + slash + name, attrs, y);
  }

  /** Every tag named p, div, span, h1-h6, ul or ol, opening or closing,
      with any attributes, becomes a newline. */
  lemma BlockTagsBecomeNewlines(x: string, slash: string, name: string, attrs: string, y: string)
    requires NoChar(x, '<') && (slash == "" || slash == "/")
    requires IsBlockName(Lower(name)) && NoChar(attrs, '>')
    ensures Rewrite(x + ("<" + slash + name + attrs + ">") + y, Block) == x + "\n" + Rewrite(y, Block)
  {
    BlockTagMatch(slash, name, attrs, y, false);
    TagRulesStartWithAngle();
    RewriteReplacesAfter(Block, '<', x, "<" + slash + name + attrs + ">", y, "\n");
  }

  /** As written, the block pattern also takes the `<pre>` tags the
      converter keeps a few steps earlier, since `p` matches their name's
      first letter: both become newlines. */
  lemma PreTagsBecomeNewlines(x: string, y: string)
    requires NoChar(x, '<')
    ensures Rewrite(x + PreOpen + y, Block) == x + "\n" + Rewrite(y, Block)
    ensures Rewrite(x + PreClose + y, Block) == x + "\n" + Rewrite(y, Block)
  {
    var p, re, slash: string := "p", "re", "/";
    assert "<" + [] + p + re + ">" == PreOpen;
    assert "<" + slash + p + re + ">" == PreClose;
    assert Lower(p) == [LowerChar('p')] + Lower([]) == "p";
    BlockTagsBecomeNewlines(x, [], p, re, y);
    BlockTagsBecomeNewlines(x, slash, p, re, y);
  }

  /** With the tag name required to end, the block pattern still takes
      every block tag ... */
  lemma FixedBlockTagsBecomeNewlines(x: string, slash: string, name: string, attrs: string, y: string)
    requires NoChar(x, '<') && (slash == "" || slash == "/")
    requires IsBlockName(Lower(name)) && NoChar(attrs, '>')
    requires attrs == [] || IsSpace(attrs[0]) || attrs[0] == '/'
    ensures Rewrite(x + ("<" + slash + name + attrs + ">") + y, BlockFixed) == x + "\n" + Rewrite(y, BlockFixed)
  {
    BlockTagMatch(slash, name, attrs, y, true);
    TagRulesStartWithAngle();
    RewriteReplacesAfter(BlockFixed, '<', x, "<" + slash + name + attrs + ">", y, "\n");
  }

  /** ... and leaves every supported tag alone, in any case. */
  lemma FixedBlockKeepsSupportedTags(x: string, slash: string, name: string, y: string)
    requires NoChar(x, '<') && (slash == "" || slash == "/") && Lower(name) in SupportedNames
    ensures Rewrite(x + ("<" + slash + name + ">") + y, BlockFixed) == x + ("<" + slash + name + ">") + Rewrite(y, BlockFixed)
  {
    var t := "<" + slash + name + ">";
    SupportedLetters(name);
    LettersHaveNoMarkup(name);
    TagTail(slash, name);
    FixedBlockSkips(slash, name, y);
    FixedBlockCopies(t, y);
    FixedBlockPassesOver(x, t + y);
    AppendAssoc(x, t, y);
  }

  lemma TagTail(slash: string, name: string)
    requires slash == "" || slash == "/"
    requires NoChar(name, '<')
    ensures NoChar(("<" + slash + name + ">")[1..], '<')
  {
    assert ("<" + slash + name + ">")[1..] == slash + name + ">";
  }

  lemma FixedBlockCopies(t: string, y: string)
    requires t != [] && MatchBlock(t + y, true).None? && NoChar(t[1..], '<')
    ensures Rewrite(t + y, BlockFixed) == t + Rewrite(y, BlockFixed)
  {
    TagRulesStartWithAngle();
    CopiedAfter(BlockFixed, t, y);
  }

  lemma FixedBlockPassesOver(x: string, z: string)
    requires NoChar(x, '<')
    ensures Rewrite(x + z, BlockFixed) == x + Rewrite(z, BlockFixed)
  {
    TagRulesStartWithAngle();
    RewritePassesOver(BlockFixed, '<', x, z);
  }

  lemma SupportedLetters(name: string)
    requires Lower(name) in SupportedNames
    ensures LowerLetters(Lower(name)) && name != []
  {
  }

  /** A text no rule matches at its start, and whose tail has no `<`,
      is copied whole. */
  lemma CopiedAfter(r: Rule, t: string, y: string)
    requires t != [] && MatchAt(r, t + y).None? && NoChar(t[1..], '<') && StartsOnlyWith(r, '<')
    ensures Rewrite(t + y, r) == t + Rewrite(y, r)
  {
    RewriteCopies(t + y, r);
    TailOfAppend(t, y);
    RewritePassesOver(r, '<', t[1..], y);
    ConsAppend(t, Rewrite(y, r));
  }

  lemma TailOfAppend(t: string, y: string)
    requires t != []
    ensures (t + y)[0] == t[0] && (t + y)[1..] == t[1..] + y
  {
  }

  lemma FixedBlockSkips(slash: string, name: string, y: string)
    requires (slash == "" || slash == "/") && Lower(name) in SupportedNames
    ensures MatchBlock("<" + slash + name + ">" + y, true).None?
  {
    var s := "<" + slash + name + ">" + y;
    var j := 1 + |slash|;
    SupportedLetters(name);
    assert Lower(name)[0] == LowerChar(name[0]);
    SlashSkipped(slash, name, ">" + y);
    assert s == "<" + slash + name + (">" + y);
    SupportedNameNotBlock(name, ">" + y);
    if BlockName(s[j..]).Some? {
      assert s[j + 1] == name[1];
      assert Lower(name)[1] == LowerChar(name[1]) == 'r';
    }
  }

  // ---------------------------------------------------------------------
  // The whole converter on a <pre> block

  /** `a` and `t` differ in their second or third character. */
  predicate Misses(a: string, t: string) {
    |a| > 2 && |t| > 2 && (a[1] != t[1] || a[2] != t[2])
  }

  /** A literal rule none of whose alternatives agrees with the text in
      its second and third characters does not match there. */
  lemma LiteralMisses(s: string, alts: seq<string>, ignoreCase: bool, rep: string)
    requires |s| > 2 && LowerChar(s[1]) == s[1] && LowerChar(s[2]) == s[2]
    requires forall k :: 0 <= k < |alts| ==> Misses(alts[k], s)
    ensures MatchAt(Literal(alts, ignoreCase, rep), s).None?
  {
    forall k | 0 <= k < |alts|
      ensures !StartsWith(s, alts[k]) && !StartsWithCI(s, alts[k])
    {
      var a := alts[k];
      if |a| <= |s| {
        assert s[..|a|][1] == s[1] && s[..|a|][2] == s[2];
        assert Lower(s[..|a|])[1] == LowerChar(s[1]) && Lower(s[..|a|])[2] == LowerChar(s[2]);
      }
    }
  }

  /** Text the converter has nothing to do with: no tags, newlines or
      entities, and no whitespace at its ends. */
  predicate PlainText(x: string) {
    x != [] && NoChar(x, '<') && NoChar(x, '\n') && NoChar(x, '&') && Unpadded(x)
  }

  /** A code block as the editor writes it. */
  function PreBlock(x: string): (b: string)
    ensures |b| == |x| + 11 && b[1] == 'p' && b[2] == 'r'
  {
    PreOpen + x + PreClose
  }

  /** A tag that the rule leaves alone or replaces by itself is kept, and
      the scan goes on after it. */
  lemma KeepsTagAt(r: Rule, t: string, z: string)
    requires StartsOnlyWith(r, '<') && t != [] && NoChar(t[1..], '<')
    requires MatchAt(r, t + z).None? || MatchAt(r, t + z) == Some(Match(|t|, t))
    ensures Rewrite(t + z, r) == t + Rewrite(z, r)
  {
    if MatchAt(r, t + z).None? {
      CopiedAfter(r, t, z);
    } else {
      RewriteReplaces(t + z, r, Match(|t|, t));
      DropFront(t, z);
    }
  }

  /** A rule that starts at `<` and keeps both tags around a text without
      `<` keeps the whole. */
  lemma KeepsTagged(r: Rule, open: string, x: string, close: string)
    requires StartsOnlyWith(r, '<') && NoChar(x, '<')
    requires open != [] && NoChar(open[1..], '<') && close != [] && NoChar(close[1..], '<')
    requires MatchAt(r, open + (x + close)).None? || MatchAt(r, open + (x + close)) == Some(Match(|open|, open))
    requires MatchAt(r, close).None? || MatchAt(r, close) == Some(Match(|close|, close))
    ensures Rewrite(open + x + close, r) == open + x + close
  {
    KeepsTagAt(r, open, x + close);
    PassesThenKeeps(r, x, close);
    AppendAssoc(open, x, close);
  }

  lemma PassesThenKeeps(r: Rule, x: string, t: string)
    requires StartsOnlyWith(r, '<') && NoChar(x, '<') && t != [] && NoChar(t[1..], '<')
    requires MatchAt(r, t).None? || MatchAt(r, t) == Some(Match(|t|, t))
    ensures Rewrite(x + t, r) == x + t
  {
    RewritePassesOver(r, '<', x, t);
    KeepsWhole(r, t);
  }

  lemma KeepsWhole(r: Rule, t: string)
    requires StartsOnlyWith(r, '<') && t != [] && NoChar(t[1..], '<')
    requires MatchAt(r, t).None? || MatchAt(r, t) == Some(Match(|t|, t))
    ensures Rewrite(t, r) == t
  {
    var e: string := [];
    assert t + e == t;
    KeepsTagAt(r, t, e);
  }

  /** ... so it keeps a code block. */
  lemma KeepsPreBlock(r: Rule, x: string)
    requires StartsOnlyWith(r, '<') && NoChar(x, '<')
    requires MatchAt(r, PreBlock(x)).None? || MatchAt(r, PreBlock(x)) == Some(Match(5, PreOpen))
    requires MatchAt(r, PreClose).None? || MatchAt(r, PreClose) == Some(Match(6, PreClose))
    ensures Rewrite(PreBlock(x), r) == PreBlock(x)
  {
    assert PreBlock(x) == PreOpen + (x + PreClose);
    assert NoChar(PreOpen[1..], '<') && NoChar(PreClose[1..], '<');
    KeepsTagged(r, PreOpen, x, PreClose);
  }

  /** A literal rule of the converter other than the two `<pre>` ones
      keeps a code block. */
  lemma LiteralKeepsPreBlock(alts: seq<string>, ignoreCase: bool, rep: string, x: string)
    requires NoChar(x, '<')
    requires forall k :: 0 <= k < |alts| ==> alts[k] != [] && alts[k][0] == '<'
    requires forall k :: 0 <= k < |alts| ==> Misses(alts[k], PreBlock(x)) && Misses(alts[k], PreClose)
    ensures Rewrite(PreBlock(x), Literal(alts, ignoreCase, rep)) == PreBlock(x)
  {
    LiteralStartsOnlyWith(alts, ignoreCase, rep, '<');
    LiteralMisses(PreBlock(x), alts, ignoreCase, rep);
    LiteralMisses(PreClose, alts, ignoreCase, rep);
    KeepsPreBlock(Literal(alts, ignoreCase, rep), x);
  }

  /** Rules that each leave a text as it is leave it as it is together. */
  lemma {:induction false} RulesKeep(rules: seq<Rule>, s: string)
    requires forall k :: 0 <= k < |rules| ==> Rewrite(s, rules[k]) == s
    ensures ApplyAll(s, rules) == s
    decreases |rules|
  {
    if rules != [] {
      RulesKeep(rules[1..], s);
    }
  }

  /** The two rules that keep the `<pre>` tags keep a code block. */
  lemma PreRulesKeepPreBlock(x: string, t: string)
    requires NoChar(x, '<') && (t == PreOpen || t == PreClose)
    ensures Rewrite(PreBlock(x), Literal([t], true, t)) == PreBlock(x)
  {
    var b := PreBlock(x);
    var r := Literal([t], true, t);
    assert Lower(t) == t;
    LiteralStartsOnlyWith(r.alts, true, r.rep, '<');
    if t == PreOpen {
      assert b[..5] == t;
      OnlySpellingMatches(b, t, true, t);
      LiteralMisses(PreClose, r.alts, true, r.rep);
    } else {
      assert PreClose[..6] == t;
      LiteralMisses(b, r.alts, true, r.rep);
      OnlySpellingMatches(PreClose, t, true, t);
    }
    KeepsPreBlock(r, x);
  }

  /** The link and list-item patterns keep a code block. */
  lemma TagPatternsKeepPreBlock(x: string, r: Rule)
    requires NoChar(x, '<') && (r == Link || r == ListItem)
    ensures Rewrite(PreBlock(x), r) == PreBlock(x)
  {
    var b := PreBlock(x);
    var a := if r == Link then "<a" else "<li";
    var e: string := [];
    NotStartsWithCI(b, e, a, 1);
    NotStartsWithCI(PreClose, e, a, 1);
    assert b + e == b && PreClose + e == PreClose;
    TagRulesStartWithAngle();
    KeepsPreBlock(r, x);
  }

  /** Every rewrite before the block pattern keeps a code block. */
  lemma TagRewritesKeepPreBlock(x: string)
    requires NoChar(x, '<')
    ensures ApplyAll(PreBlock(x), TagRewrites) == PreBlock(x)
  {
    var b := PreBlock(x);
    forall k | 0 <= k < |TagRewrites|
      ensures Rewrite(b, TagRewrites[k]) == b
    {
      var r := TagRewrites[k];
      if k == 13 || k == 14 {
        PreRulesKeepPreBlock(x, if k == 13 then PreOpen else PreClose);
      } else if k == 15 || k == 16 {
        TagPatternsKeepPreBlock(x, r);
      } else {
        LiteralKeepsPreBlock(r.alts, r.ignoreCase, r.rep, x);
      }
    }
    RulesKeep(TagRewrites, b);
  }

  /** Applying two lists of rules is applying their concatenation. */
  lemma {:induction false} ApplyAllSplit(s: string, a: seq<Rule>, b: seq<Rule>)
    ensures ApplyAll(s, a + b) == ApplyAll(ApplyAll(s, a), b)
    decreases |a|
  {
    if a != [] {
      assert (a + b)[0] == a[0] && (a + b)[1..] == a[1..] + b;
      ApplyAllSplit(Rewrite(s, a[0]), a[1..], b);
    } else {
      assert a + b == b;
    }
  }

  /** The rewrites before the clean-up reduce a code block to what the
      last rule, the block pattern, makes of it. */
  lemma BeforeCollapseOnPreBlock(x: string, last: Rule)
    requires NoChar(x, '<')
    ensures ApplyAll(PreBlock(x), TagRewrites + [last]) == Rewrite(PreBlock(x), last)
  {
    TagRewritesKeepPreBlock(x);
    ApplyAllSplit(PreBlock(x), TagRewrites, [last]);
  }

  /** The clean-up leaves a text without newlines alone. */
  lemma {:induction false} NewlinesPassOver(s: string)
    requires NoChar(s, '\n')
    ensures Rewrite(s, Newlines) == s
    decreases |s|
  {
    if s != [] {
      assert LeadingNewlines(s) == 0;
      RewriteCopies(s, Newlines);
      NewlinesPassOver(s[1..]);
    }
  }

  /** The steps after the rewrites, for a text with no run of three
      newlines and no `&`: only the strip changes it. */
  lemma TailOnlyStrips(s: string)
    requires NoChar(s, '&') && forall i :: 0 <= i < |s| ==> LeadingNewlines(s[i..]) < 3
    ensures ApplyAll(Rewrite(s, Newlines), Entities) == s
  {
    ShortRunsKept(s);
    EntitiesStartWithAmpersand();
    RulesPassOver(Entities, '&', s);
  }

  lemma {:induction false} ShortRunsKept(s: string)
    requires forall i :: 0 <= i < |s| ==> LeadingNewlines(s[i..]) < 3
    ensures Rewrite(s, Newlines) == s
    decreases |s|
  {
    if s != [] {
      assert s[0..] == s;
      RewriteCopies(s, Newlines);
      forall i | 0 <= i < |s[1..]| ensures LeadingNewlines(s[1..][i..]) < 3 {
        assert s[1..][i..] == s[i + 1..];
      }
      ShortRunsKept(s[1..]);
    }
  }

  /** The block pattern turns both tags of a code block into newlines. */
  lemma BlockTakesPreTags(x: string)
    requires NoChar(x, '<')
    ensures Rewrite(PreBlock(x), Block) == "\n" + x + "\n"
  {
    BlockTakesPreOpen(x + PreClose);
    assert PreBlock(x) == PreOpen + (x + PreClose);
    BlockTakesPreClose(x);
  }

  lemma BlockTakesPreOpen(z: string)
    ensures Rewrite(PreOpen + z, Block) == "\n" + Rewrite(z, Block)
  {
    var e: string := [];
    assert PreOpen + z == e + PreOpen + z;
    PreTagsBecomeNewlines(e, z);
  }

  lemma BlockTakesPreClose(x: string)
    requires NoChar(x, '<')
    ensures Rewrite(x + PreClose, Block) == x + "\n"
  {
    var e: string := [];
    assert x + PreClose == x + PreClose + e;
    PreTagsBecomeNewlines(x, e);
    assert Rewrite(e, Block) == e;
  }

  /** The corrected block pattern keeps both tags of a code block. */
  lemma FixedBlockKeepsPreTags(x: string)
    requires NoChar(x, '<')
    ensures Rewrite(PreBlock(x), BlockFixed) == PreBlock(x)
  {
    var e: string := [];
    var slash: string := "/";
    assert Lower(PreName) == PreName;
    assert PreOpen == "<" + e + PreName + ">" && PreClose == "<" + slash + PreName + ">";
    assert PreBlock(x) == e + PreOpen + (x + PreClose);
    FixedBlockKeepsSupportedTags(e, e, PreName, x + PreClose);
    assert x + PreClose == x + PreClose + e;
    FixedBlockKeepsSupportedTags(x, slash, PreName, e);
  }

  /** The converter once its rewrites have produced `mid`. */
  lemma ConvertAfter(html: string, before: seq<Rule>, mid: string)
    requires html != [] && ApplyAll(html, before) == mid
    ensures Convert(html, before) == Strip(ApplyAll(Rewrite(mid, Newlines), Entities))
  {
  }

  /** A newline on each side of a text without newlines makes no run of
      three. */
  lemma OneNewlineEachSide(x: string)
    requires x != [] && NoChar(x, '\n')
    ensures var n := "\n" + x + "\n"; forall i :: 0 <= i < |n| ==> LeadingNewlines(n[i..]) < 3
  {
    var n := "\n" + x + "\n";
    forall i | 0 <= i < |n| ensures LeadingNewlines(n[i..]) < 3 {
      if 0 < i < |n| - 1 {
        assert n[i..][0] == x[i - 1];
      } else if i == 0 {
        assert n[i..][1..][0] == x[0];
      } else {
        assert n[i..][1..] == [];
      }
    }
  }

  /** The strip takes off the two newlines. */
  lemma StripNewlines(x: string)
    requires x != [] && Unpadded(x)
    ensures Strip("\n" + x + "\n") == x
  {
    var n := "\n" + x + "\n";
    assert TrimStart(n) == x + "\n" by {
      assert n[1..] == x + "\n";
      assert (x + "\n")[0] == x[0];
    }
    assert TrimEnd(x + "\n") == x by {
      assert (x + "\n")[..|x|] == x;
    }
  }

  /** After the block pattern, what follows only strips the two
      newlines. */
  lemma FramedTextStripped(x: string)
    requires PlainText(x)
    ensures Strip(ApplyAll(Rewrite("\n" + x + "\n", Newlines), Entities)) == x
  {
    var n := "\n" + x + "\n";
    OneNewlineEachSide(x);
    assert NoChar(n, '&') by {
      forall i | 0 <= i < |n| ensures n[i] != '&' {
        if 0 < i < |n| - 1 {
          assert n[i] == x[i - 1];
        }
      }
    }
    TailOnlyStrips(n);
    StripNewlines(x);
  }

  /** As written, the converter drops a code block's tags: the block
      pattern turns both into newlines, which the strip then removes. */
  lemma PreBlockLosesTags(x: string)
    requires PlainText(x)
    ensures HtmlToTelegram(PreBlock(x)) == x
  {
    var n := "\n" + x + "\n";
    BeforeCollapseOnPreBlock(x, Block);
    BlockTakesPreTags(x);
    ConvertAfter(PreBlock(x), BeforeCollapse, n);
    FramedTextStripped(x);
  }

  /** The steps after the rewrites leave a text without newlines, `&` or
      surrounding whitespace as it is. */
  lemma PlainTailKept(s: string)
    requires NoChar(s, '\n') && NoChar(s, '&') && Unpadded(s)
    ensures Strip(ApplyAll(Rewrite(s, Newlines), Entities)) == s
  {
    NewlinesPassOver(s);
    EntitiesStartWithAmpersand();
    RulesPassOver(Entities, '&', s);
    assert TrimStart(s) == s;
  }

  /** A code block around plain text has no newline, no `&` and starts and
      ends with a tag. */
  lemma PreBlockIsPlain(x: string)
    requires PlainText(x)
    ensures NoChar(PreBlock(x), '\n') && NoChar(PreBlock(x), '&') && Unpadded(PreBlock(x))
  {
    var b := PreBlock(x);
    forall i | 0 <= i < |b| ensures b[i] != '\n' && b[i] != '&' {
      if 5 <= i < 5 + |x| {
        assert b[i] == x[i - 5];
      }
    }
  }

  /** The corrected converter sends a code block as it is. */
  lemma FixedKeepsPreBlock(x: string)
    requires PlainText(x)
    ensures HtmlToTelegramFixed(PreBlock(x)) == PreBlock(x)
  {
    BeforeCollapseOnPreBlock(x, BlockFixed);
    FixedBlockKeepsPreTags(x);
    ConvertAfter(PreBlock(x), BeforeCollapseFixed, PreBlock(x));
    PreBlockIsPlain(x);
    PlainTailKept(PreBlock(x));
  }
}
