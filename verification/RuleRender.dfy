/** The rule compiler: every enabled rule is checked and written as lines that read back as the same rule. */
module RuleRender {
  import opened Strings
  import opened RuleScanners

  datatype Rule = Rule(id: nat, fields: Fields, enabled: bool)

  datatype Fields = Fields(name: string, expr: string, duration: string, severity: string, summary: string,
                           description: string)

  datatype ExprProblem = Required | TooLong | Forbidden | Subquery

  datatype Problem =
    | BadName(id: nat)
    | BadExpr(name: string, why: ExprProblem)
    | BadDuration(name: string)
    | BadSeverity(name: string)
    | BadSummary(name: string)

  datatype Result = Rendered(text: string) | Failed(problem: Problem)

  // ---- Checks ----

  /** Length in bytes. */
  function Bytes(s: string): nat {
    if s == [] then 0 else CharBytes(s[0]) + Bytes(s[1..])
  }

  function CharBytes(c: char): nat {
    var n := c as int;
    if n < 0x80 then 1 else if n < 0x800 then 2 else if n < 0x1_0000 then 3 else 4
  }

  const FORBIDDEN_TERMS: seq<string> := ["admin_api", "scrape_interval", "scrape_duration"]
  const SEVERITIES: set<string> := {"critical", "warning", "info"}

  ghost predicate NamesForbidden(expr: string, t: Tables) {
    exists k :: 0 <= k < |FORBIDDEN_TERMS| && Contains(Lower(expr, t), FORBIDDEN_TERMS[k])
  }

  ghost function ExprVerdict(expr: string, t: Tables): Option<ExprProblem> {
    if expr == "" then Some(Required)
    else if Bytes(expr) > 2048 then Some(TooLong)
    else if NamesForbidden(expr, t) then Some(Forbidden)
    else if HasSubquery(expr) then Some(Subquery)
    else None
  }

  ghost function Verdict(rule: Rule, t: Tables): Option<Problem> {
    var f := rule.fields;
    if f.name == "" || Bytes(f.name) > 128 then Some(BadName(rule.id))
    else if ExprVerdict(f.expr, t).Some? then Some(BadExpr(f.name, ExprVerdict(f.expr, t).value))
    else if !IsDuration(f.duration) then Some(BadDuration(f.name))
    else if f.severity !in SEVERITIES then Some(BadSeverity(f.name))
    else if Bytes(f.summary) > 512 then Some(BadSummary(f.name))
    else None
  }

  /** A forbidden term anywhere in the expression, in any mixture of cases, is rejected. */
  lemma AnyCaseRejected(expr: string, t: Tables, k: nat, i: nat)
    requires k < |FORBIDDEN_TERMS| && i + |FORBIDDEN_TERMS[k]| <= |expr|
    requires SameButCase(expr[i..i + |FORBIDDEN_TERMS[k]|], FORBIDDEN_TERMS[k])
    ensures ExprVerdict(expr, t).Some? && ExprVerdict(expr, t) != Some(Subquery)
  {
    var term := FORBIDDEN_TERMS[k];
    var part := expr[i..i + |term|];
    TermsAreLower(k);
    LowerOfVariant(part, term, t);
    assert Lower(expr, t)[i..i + |term|] == Lower(part, t);
    assert OccursAt(Lower(expr, t), term, i);
    hide HasSubquery;
  }

  lemma TermsAreLower(k: nat)
    requires k < |FORBIDDEN_TERMS|
    ensures LowerAscii(FORBIDDEN_TERMS[k])
  {
    assert LowerAscii("admin_api") && LowerAscii("scrape_interval") && LowerAscii("scrape_duration");
  }

  method ValidateExpr(expr: string, t: Tables) returns (problem: Option<ExprProblem>)
    ensures problem == ExprVerdict(expr, t)
  {
    hide Contains, HasSubquery;
    if expr == "" {
      return Some(Required);
    }
    if Bytes(expr) > 2048 {
      return Some(TooLong);
    }
    var lower := Lower(expr, t);
    for k := 0 to |FORBIDDEN_TERMS|
      invariant forall j :: 0 <= j < k ==> !Contains(lower, FORBIDDEN_TERMS[j])
    {
      var found := HasPart(lower, FORBIDDEN_TERMS[k]);
      if found {
        return Some(Forbidden);
      }
    }
    var subquery := ContainsSubquery(expr);
    problem := if subquery then Some(Subquery) else None;
  }

  method ValidateRule(rule: Rule, t: Tables) returns (problem: Option<Problem>)
    ensures problem == Verdict(rule, t)
  {
    hide ExprVerdict, IsDuration;
    var f := rule.fields;
    if f.name == "" || Bytes(f.name) > 128 {
      return Some(BadName(rule.id));
    }
    var why := ValidateExpr(f.expr, t);
    if why.Some? {
      return Some(BadExpr(f.name, why.value));
    }
    var ok := ValidateDuration(f.duration);
    if !ok {
      return Some(BadDuration(f.name));
    }
    if f.severity !in SEVERITIES {
      return Some(BadSeverity(f.name));
    }
    problem := if Bytes(f.summary) > 512 then Some(BadSummary(f.name)) else None;
  }

  // ---- Quoting ----

  function Letter(c: char): Option<char> {
    match c
    case '\U{7}' => Some('a')
    case '\U{8}' => Some('b')
    case '\U{c}' => Some('f')
    case '\n' => Some('n')
    case '\r' => Some('r')
    case '\t' => Some('t')
    case '\U{b}' => Some('v')
    case _ => None
  }

  function FromLetter(c: char): Option<char> {
    match c
    case 'a' => Some('\U{7}')
    case 'b' => Some('\U{8}')
    case 'f' => Some('\U{c}')
    case 'n' => Some('\n')
    case 'r' => Some('\r')
    case 't' => Some('\t')
    case 'v' => Some('\U{b}')
    case '\\' => Some('\\')
    case '\"' => Some('\"')
    case _ => None
  }

  predicate Prints(c: char, t: Tables) {
    if c < '\U{80}' then ' ' <= c <= '~' else t.printable(c)
  }

  function HexChar(d: nat): char
    requires d < 16
  {
    if d < 10 then (48 + d) as char else (87 + d) as char
  }

  function HexDigit(c: char): Option<nat> {
    if '0' <= c <= '9' then Some(c as int - 48)
    else if 'a' <= c <= 'f' then Some(c as int - 87)
    else None
  }

  function Hex(n: nat, width: nat): string {
    if width == 0 then "" else Hex(n / 16, width - 1) + [HexChar(n % 16)]
  }

  function HexValue(s: string): Option<nat> {
    if s == [] then Some(0)
    else
      match (HexValue(s[..|s| - 1]), HexDigit(s[|s| - 1]))
      case (Some(high), Some(low)) => Some(16 * high + low)
      case _ => None
  }

  function Pow16(width: nat): nat {
    if width == 0 then 1 else 16 * Pow16(width - 1)
  }

  lemma {:induction false} HexReads(n: nat, width: nat)
    requires n < Pow16(width)
    ensures |Hex(n, width)| == width && HexValue(Hex(n, width)) == Some(n) && '\n' !in Hex(n, width)
  {
    if width > 0 {
      HexReads(n / 16, width - 1);
      var s := Hex(n, width);
      assert s[..|s| - 1] == Hex(n / 16, width - 1);
      assert HexDigit(HexChar(n % 16)) == Some(n % 16);
    }
  }

  lemma Pow16Values()
    ensures Pow16(2) == 0x100 && Pow16(4) == 0x1_0000 && Pow16(8) == 0x1_0000_0000
  {
    assert Pow16(1) == 16 && Pow16(2) == 16 * Pow16(1) && Pow16(3) == 16 * Pow16(2) && Pow16(4) == 16 * Pow16(3);
    assert Pow16(5) == 16 * Pow16(4) && Pow16(6) == 16 * Pow16(5) && Pow16(7) == 16 * Pow16(6);
  }

  function HexForm(c: char): string {
    var n := c as int;
    if n < 0x80 then "\\x" + Hex(n, 2)
    else if n < 0x1_0000 then "\\u" + Hex(n, 4)
    else "\\U" + Hex(n, 8)
  }

  function EscapeChar(c: char, t: Tables): string {
    if c == '\"' || c == '\\' then ['\\', c]
    else if Prints(c, t) then [c]
    else if Letter(c).Some? then ['\\', Letter(c).value]
    else HexForm(c)
  }

  function Escape(s: string, t: Tables): string {
    if s == [] then "" else EscapeChar(s[0], t) + Escape(s[1..], t)
  }

  /** strconv.Quote. */
  function Quote(s: string, t: Tables): string {
    "\"" + Escape(s, t) + "\""
  }

  // ---- Reading a quoted text ----

  function ReadHex(b: string, width: nat): Option<(char, nat)>
    requires |b| >= 2
  {
    if |b| < 2 + width then None
    else
      match HexValue(b[2..2 + width])
      case None => None
      case Some(n) =>
        if n < 0xD800 || 0xE000 <= n < 0x11_0000 then Some((n as char, 2 + width)) else None
  }

  /** The first character written in b, and how much of b writes it. */
  function ReadChar(b: string): Option<(char, nat)> {
    if b == [] || b[0] == '\"' then None
    else if b[0] != '\\' then Some((b[0], 1))
    else if |b| == 1 then None
    else if FromLetter(b[1]).Some? then Some((FromLetter(b[1]).value, 2))
    else if b[1] == 'x' then ReadHex(b, 2)
    else if b[1] == 'u' then ReadHex(b, 4)
    else if b[1] == 'U' then ReadHex(b, 8)
    else None
  }

  function Unescape(b: string): Option<string>
    decreases |b|
  {
    if b == [] then Some("")
    else
      match ReadChar(b)
      case None => None
      case Some(first) =>
        match Unescape(b[first.1..])
        case None => None
        case Some(rest) => Some([first.0] + rest)
  }

  function Unquote(s: string): Option<string> {
    if |s| >= 2 && s[0] == '\"' && s[|s| - 1] == '\"' then Unescape(s[1..|s| - 1]) else None
  }

  lemma HexFormReads(c: char, rest: string)
    ensures '\n' !in HexForm(c)
    ensures HexForm(c) != [] && ReadChar(HexForm(c) + rest) == Some((c, |HexForm(c)|))
  {
    Pow16Values();
    var n := c as int;
    var w := if n < 0x80 then 2 else if n < 0x1_0000 then 4 else 8;
    HexReads(n, w);
    hide Hex, HexValue, Pow16;
    var b := HexForm(c) + rest;
    assert b[2..2 + w] == Hex(n, w);
  }

  lemma CharReads(c: char, t: Tables, rest: string)
    ensures '\n' !in EscapeChar(c, t) && EscapeChar(c, t) != []
    ensures ReadChar(EscapeChar(c, t) + rest) == Some((c, |EscapeChar(c, t)|))
  {
    HexFormReads(c, rest);
    hide HexForm, ReadHex;
  }

  lemma UnescapeStep(part: string, c: char, rest: string)
    requires part != [] && ReadChar(part + rest) == Some((c, |part|)) && Unescape(rest).Some?
    ensures Unescape(part + rest) == Some([c] + Unescape(rest).value)
  {
    hide ReadChar;
    assert (part + rest)[|part|..] == rest;
  }

  lemma {:induction false} EscapeReads(s: string, t: Tables)
    ensures Unescape(Escape(s, t)) == Some(s) && '\n' !in Escape(s, t)
  {
    if s != [] {
      var rest := Escape(s[1..], t);
      EscapeReads(s[1..], t);
      CharReads(s[0], t, rest);
      hide EscapeChar, ReadChar, Unescape;
      UnescapeStep(EscapeChar(s[0], t), s[0], rest);
      assert [s[0]] + s[1..] == s;
    }
  }

  /** A quoted text stays on its line and reads back, whatever characters it holds. */
  lemma QuoteReads(s: string, t: Tables)
    ensures Unquote(Quote(s, t)) == Some(s) && '\n' !in Quote(s, t)
  {
    EscapeReads(s, t);
    hide Escape, Unescape;
    var q := Quote(s, t);
    assert q[1..|q| - 1] == Escape(s, t);
  }

  // ---- Lines ----

  const ALERT := "      - alert: "
  const EXPR := "        expr: "
  const FOR := "        for: "
  const LABELS := "        labels:"
  const SEVERITY := "          severity: "
  const ANNOTATIONS := "        annotations:"
  const SUMMARY := "          summary: "
  const DESCRIPTION := "          description: "

  function RuleLines(f: Fields, t: Tables): seq<string> {
    [ALERT + Quote(f.name, t), EXPR + Quote(f.expr, t), FOR + Quote(f.duration, t), LABELS,
     SEVERITY + Quote(f.severity, t), ANNOTATIONS, SUMMARY + Quote(f.summary, t),
     DESCRIPTION + Quote(f.description, t)]
  }

  function AllRuleLines(rules: seq<Fields>, t: Tables): seq<string> {
    if rules == [] then [] else RuleLines(rules[0], t) + AllRuleLines(rules[1..], t)
  }

  function DocumentLines(rules: seq<Fields>, t: Tables): seq<string> {
    ["groups:", "  - name: custom_alerts"]
    + if rules == [] then ["    rules: []"] else ["    rules:"] + AllRuleLines(rules, t)
  }

  function Unlines(lines: seq<string>): string {
    if lines == [] then "" else lines[0] + "\n" + Unlines(lines[1..])
  }

  /** The lines of a text whose every line ends in a newline. */
  function Lines(text: string): seq<string> {
    LinesFrom("", text)
  }

  function LinesFrom(line: string, text: string): seq<string>
    decreases |text|
  {
    if text == [] then []
    else if text[0] == '\n' then [line] + LinesFrom("", text[1..])
    else LinesFrom(line + [text[0]], text[1..])
  }

  function Document(rules: seq<Fields>, t: Tables): string {
    Unlines(DocumentLines(rules, t))
  }

  // ---- Reading the document ----

  function ReadField(line: string, key: string): Option<string> {
    if |key| <= |line| && line[..|key|] == key then Unquote(line[|key|..]) else None
  }

  function ReadRule(lines: seq<string>): Option<Fields>
    requires |lines| == 8
  {
    if lines[3] != LABELS || lines[5] != ANNOTATIONS then None
    else
      match (ReadField(lines[0], ALERT), ReadField(lines[1], EXPR), ReadField(lines[2], FOR),
             ReadField(lines[4], SEVERITY), ReadField(lines[6], SUMMARY), ReadField(lines[7], DESCRIPTION))
      case (Some(name), Some(expr), Some(duration), Some(severity), Some(summary), Some(description)) =>
        Some(Fields(name, expr, duration, severity, summary, description))
      case _ => None
  }

  function ReadRules(lines: seq<string>): Option<seq<Fields>>
    decreases |lines|
  {
    if lines == [] then Some([])
    else if |lines| < 8 then None
    else
      match (ReadRule(lines[..8]), ReadRules(lines[8..]))
      case (Some(first), Some(rest)) => Some([first] + rest)
      case _ => None
  }

  function ReadDocument(text: string): Option<seq<Fields>> {
    var lines := Lines(text);
    if |lines| < 3 || lines[0] != "groups:" || lines[1] != "  - name: custom_alerts" then None
    else if lines[2..] == ["    rules: []"] then Some([])
    else if lines[2] == "    rules:" then ReadRules(lines[3..])
    else None
  }

  lemma FieldReads(key: string, value: string, t: Tables)
    requires '\n' !in key
    ensures ReadField(key + Quote(value, t), key) == Some(value) && '\n' !in key + Quote(value, t)
  {
    QuoteReads(value, t);
    hide Quote, Unquote;
    assert (key + Quote(value, t))[|key|..] == Quote(value, t);
  }

  predicate OnOneLine(lines: seq<string>) {
    forall i :: 0 <= i < |lines| ==> '\n' !in lines[i]
  }

  lemma RuleReads(f: Fields, t: Tables)
    ensures |RuleLines(f, t)| == 8 && OnOneLine(RuleLines(f, t)) && ReadRule(RuleLines(f, t)) == Some(f)
  {
    hide ReadField, Quote;
    FieldReads(ALERT, f.name, t);
    FieldReads(EXPR, f.expr, t);
    FieldReads(FOR, f.duration, t);
    FieldReads(SEVERITY, f.severity, t);
    FieldReads(SUMMARY, f.summary, t);
    FieldReads(DESCRIPTION, f.description, t);
  }

  lemma {:induction false} RulesRead(rules: seq<Fields>, t: Tables)
    ensures OnOneLine(AllRuleLines(rules, t)) && ReadRules(AllRuleLines(rules, t)) == Some(rules)
  {
    if rules != [] {
      var first, rest := RuleLines(rules[0], t), AllRuleLines(rules[1..], t);
      RuleReads(rules[0], t);
      RulesRead(rules[1..], t);
      hide RuleLines, ReadRule;
      assert (first + rest)[..8] == first && (first + rest)[8..] == rest;
      assert [rules[0]] + rules[1..] == rules;
    }
  }

  lemma {:induction false} LineFrom(line: string, more: string, text: string)
    requires '\n' !in more
    ensures LinesFrom(line, more + "\n" + text) == [line + more] + LinesFrom("", text)
    decreases |more|
  {
    var all := more + "\n" + text;
    if more == [] {
      assert all[1..] == text && line + more == line;
    } else {
      assert all[1..] == more[1..] + "\n" + text;
      LineFrom(line + [more[0]], more[1..], text);
      assert line + [more[0]] + more[1..] == line + more;
    }
  }

  lemma {:induction false} LinesRead(lines: seq<string>)
    requires OnOneLine(lines)
    ensures Lines(Unlines(lines)) == lines
  {
    if lines != [] {
      LineFrom("", lines[0], Unlines(lines[1..]));
      assert forall i :: 0 <= i < |lines[1..]| ==> lines[1..][i] == lines[i + 1];
      LinesRead(lines[1..]);
      assert "" + lines[0] == lines[0];
    }
  }

  /** The document reads back as exactly the rules it was written from. */
  lemma DocumentReads(rules: seq<Fields>, t: Tables)
    ensures ReadDocument(Document(rules, t)) == Some(rules)
  {
    RulesRead(rules, t);
    hide AllRuleLines, ReadRules;
    var lines := DocumentLines(rules, t);
    HeaderOnOneLine(rules, t);
    LinesRead(lines);
    hide Lines, Unlines;
    if rules != [] {
      assert lines[3..] == AllRuleLines(rules, t);
      assert lines[2] == "    rules:";
      assert lines[2..][0] == lines[2];
    } else {
      assert lines[2..] == ["    rules: []"];
    }
  }

  lemma HeaderOnOneLine(rules: seq<Fields>, t: Tables)
    requires OnOneLine(AllRuleLines(rules, t))
    ensures OnOneLine(DocumentLines(rules, t))
  {
    hide AllRuleLines;
  }

  // ---- Rendering ----

  function Enabled(rules: seq<Rule>): seq<Rule> {
    if rules == [] then []
    else if rules[|rules| - 1].enabled then Enabled(rules[..|rules| - 1]) + [rules[|rules| - 1]]
    else Enabled(rules[..|rules| - 1])
  }

  function FieldsOf(rules: seq<Rule>): (fields: seq<Fields>)
    ensures |fields| == |rules| && forall i :: 0 <= i < |rules| ==> fields[i] == rules[i].fields
  {
    seq(|rules|, i requires 0 <= i < |rules| => rules[i].fields)
  }

  /** The problem of the first rule, in order, that has one. */
  ghost function FirstProblem(rules: seq<Rule>, t: Tables): Option<Problem> {
    if rules == [] then None
    else if Verdict(rules[0], t).Some? then Verdict(rules[0], t)
    else FirstProblem(rules[1..], t)
  }

  ghost function Rendering(rules: seq<Rule>, t: Tables): Result {
    var enabled := Enabled(rules);
    match FirstProblem(enabled, t)
    case Some(problem) => Failed(problem)
    case None => Rendered(Document(FieldsOf(enabled), t))
  }

  lemma {:induction false} FirstProblemSnoc(rules: seq<Rule>, last: Rule, t: Tables)
    ensures FirstProblem(rules + [last], t)
         == if FirstProblem(rules, t).Some? then FirstProblem(rules, t) else Verdict(last, t)
  {
    hide Verdict;
    var all := rules + [last];
    if rules == [] {
      assert all[1..] == [] && FirstProblem([], t) == None;
    } else {
      assert all[1..] == rules[1..] + [last];
      FirstProblemSnoc(rules[1..], last, t);
    }
  }

  lemma {:induction false} FirstProblemIsFirst(rules: seq<Rule>, i: nat, t: Tables)
    requires i < |rules| && Verdict(rules[i], t).Some?
    requires forall j :: 0 <= j < i ==> Verdict(rules[j], t).None?
    ensures FirstProblem(rules, t) == Verdict(rules[i], t)
  {
    hide Verdict;
    if i > 0 {
      FirstProblemIsFirst(rules[1..], i - 1, t);
    }
  }

  lemma {:induction false} NoProblem(rules: seq<Rule>, t: Tables)
    ensures FirstProblem(rules, t).None? <==> forall i :: 0 <= i < |rules| ==> Verdict(rules[i], t).None?
  {
    hide Verdict;
    if rules != [] {
      NoProblem(rules[1..], t);
      assert forall i :: 0 < i < |rules| ==> rules[i] == rules[1..][i - 1];
    }
  }

  lemma {:induction false} EnabledAppend(a: seq<Rule>, b: seq<Rule>)
    ensures Enabled(a + b) == Enabled(a) + Enabled(b)
    decreases |b|
  {
    if b == [] {
      assert a + b == a;
    } else {
      var front := b[..|b| - 1];
      assert (a + b)[..|a + b| - 1] == a + front;
      EnabledAppend(a, front);
    }
  }

  lemma {:induction false} EnabledAreEnabled(rules: seq<Rule>)
    ensures forall i :: 0 <= i < |Enabled(rules)| ==> Enabled(rules)[i].enabled && Enabled(rules)[i] in rules
    ensures forall r :: r in rules && r.enabled ==> r in Enabled(rules)
    ensures (forall i :: 0 <= i < |rules| ==> rules[i].enabled) ==> Enabled(rules) == rules
  {
    if rules != [] {
      var front, last := rules[..|rules| - 1], rules[|rules| - 1];
      EnabledAreEnabled(front);
      assert rules == front + [last];
    }
  }

  /** A disabled rule leaves no trace, wherever it stands. */
  lemma DisabledLeavesNoTrace(before: seq<Rule>, rule: Rule, after: seq<Rule>, t: Tables)
    requires !rule.enabled
    ensures Rendering(before + [rule] + after, t) == Rendering(before + after, t)
  {
    EnabledAppend(before + [rule], after);
    EnabledAppend(before, [rule]);
    EnabledAppend(before, after);
    assert [rule][..0] == [];
    hide Document, FirstProblem, FieldsOf;
  }

  /** One enabled rule with a problem makes the whole rendering fail; otherwise it succeeds. */
  lemma FailsIffProblem(rules: seq<Rule>, t: Tables)
    ensures Rendering(rules, t).Failed? <==> exists r :: r in rules && r.enabled && Verdict(r, t).Some?
  {
    hide Verdict, Document;
    EnabledAreEnabled(rules);
    var enabled := Enabled(rules);
    NoProblem(enabled, t);
    if r :| r in rules && r.enabled && Verdict(r, t).Some? {
      assert r in enabled;
      hide Enabled;
    }
  }

  /** What was rendered reads back as the enabled rules, in order and field by field. */
  lemma {:induction false} RenderingReads(rules: seq<Rule>, t: Tables)
    requires Rendering(rules, t).Rendered?
    ensures ReadDocument(Rendering(rules, t).text) == Some(FieldsOf(Enabled(rules)))
  {
    DocumentReads(FieldsOf(Enabled(rules)), t);
    hide Document, ReadDocument, FirstProblem, FieldsOf, Enabled;
  }

  /** Two rule lists with the same rendering enable the same rules. */
  lemma RenderingInjective(a: seq<Rule>, b: seq<Rule>, t: Tables)
    requires Rendering(a, t).Rendered? && Rendering(b, t) == Rendering(a, t)
    ensures FieldsOf(Enabled(a)) == FieldsOf(Enabled(b))
  {
    RenderingReads(a, t);
    RenderingReads(b, t);
  }

  lemma {:induction false} UnlinesAppend(a: seq<string>, b: seq<string>)
    ensures Unlines(a + b) == Unlines(a) + Unlines(b)
  {
    if a == [] {
      assert a + b == b;
    } else {
      assert (a + b)[1..] == a[1..] + b;
      UnlinesAppend(a[1..], b);
    }
  }

  lemma {:induction false} AllRuleLinesSnoc(rules: seq<Fields>, last: Fields, t: Tables)
    ensures AllRuleLines(rules + [last], t) == AllRuleLines(rules, t) + RuleLines(last, t)
  {
    hide RuleLines;
    var all := rules + [last];
    if rules == [] {
      assert all[1..] == [];
    } else {
      assert all[1..] == rules[1..] + [last];
      AllRuleLinesSnoc(rules[1..], last, t);
    }
  }

  function Started(rules: seq<Fields>, t: Tables): seq<string> {
    if rules == [] then [] else ["    rules:"] + AllRuleLines(rules, t)
  }

  lemma StartedSnoc(rules: seq<Fields>, last: Fields, t: Tables)
    ensures Started(rules + [last], t)
         == Started(rules, t) + (if rules == [] then ["    rules:"] else []) + RuleLines(last, t)
  {
    AllRuleLinesSnoc(rules, last, t);
    assert rules == [] ==> AllRuleLines(rules, t) == [];
    hide AllRuleLines, RuleLines;
  }

  /** What the builder holds once the rules so far were written. */
  function Written(rules: seq<Fields>, t: Tables): string {
    Unlines(["groups:", "  - name: custom_alerts"] + Started(rules, t))
  }

  lemma WrittenNone(t: Tables)
    ensures Written([], t) == "groups:\n" + "  - name: custom_alerts\n"
    ensures Written([], t) + "    rules: []\n" == Document([], t)
  {
    var a, b := ["groups:", "  - name: custom_alerts"], ["    rules: []"];
    UnlinesAppend(["groups:"], ["  - name: custom_alerts"]);
    assert ["groups:"] + ["  - name: custom_alerts"] == a && a + [] == a;
    UnlinesAppend(a, b);
    UnlinesOne("groups:");
    UnlinesOne("  - name: custom_alerts");
    UnlinesOne("    rules: []");
    hide Unlines;
  }

  lemma UnlinesOne(line: string)
    ensures Unlines([line]) == line + "\n"
  {
    assert Unlines([line][1..]) == "";
  }

  lemma WrittenAll(rules: seq<Fields>, t: Tables)
    requires rules != []
    ensures Written(rules, t) == Document(rules, t)
  {
    hide AllRuleLines, Unlines;
  }

  lemma WrittenSnoc(rules: seq<Fields>, last: Fields, t: Tables)
    ensures Written(rules + [last], t)
         == Written(rules, t) + (if rules == [] then "    rules:\n" else "") + Unlines(RuleLines(last, t))
  {
    StartedSnoc(rules, last, t);
    hide Started, RuleLines;
    SplitWritten(["groups:", "  - name: custom_alerts"], Started(rules, t),
                 if rules == [] then ["    rules:"] else [], RuleLines(last, t));
    UnlinesOne("    rules:");
    assert Unlines([]) == "";
    hide Unlines;
  }

  lemma SplitWritten(head: seq<string>, done: seq<string>, key: seq<string>, next: seq<string>)
    ensures Unlines(head + (done + key + next)) == Unlines(head + done) + Unlines(key) + Unlines(next)
  {
    UnlinesAppend(head + done + key, next);
    UnlinesAppend(head + done, key);
    hide Unlines;
    assert head + (done + key + next) == head + done + key + next;
  }

  lemma {:induction false} FirstProblemOfPrefix(rules: seq<Rule>, more: seq<Rule>, t: Tables)
    requires FirstProblem(rules, t).Some?
    ensures FirstProblem(rules + more, t) == FirstProblem(rules, t)
  {
    hide Verdict;
    assert (rules + more)[1..] == rules[1..] + more;
    if Verdict(rules[0], t).None? {
      FirstProblemOfPrefix(rules[1..], more, t);
    }
  }

  /** The rules read so far, one more of them enabled. */
  lemma NextEnabled(rules: seq<Rule>, i: nat, t: Tables)
    requires i < |rules| && rules[i].enabled && FirstProblem(Enabled(rules[..i]), t).None?
    ensures Enabled(rules[..i + 1]) == Enabled(rules[..i]) + [rules[i]]
    ensures FirstProblem(Enabled(rules[..i + 1]), t) == Verdict(rules[i], t)
    ensures Verdict(rules[i], t).Some? ==> Rendering(rules, t) == Failed(Verdict(rules[i], t).value)
    ensures FieldsOf(Enabled(rules[..i + 1])) == FieldsOf(Enabled(rules[..i])) + [rules[i].fields]
  {
    hide Verdict, Document;
    var front, rule := rules[..i], rules[i];
    assert rules[..i + 1][..i] == front;
    FirstProblemSnoc(Enabled(front), rule, t);
    EnabledAppend(rules[..i + 1], rules[i + 1..]);
    assert rules == rules[..i + 1] + rules[i + 1..];
    if Verdict(rule, t).Some? {
      FirstProblemOfPrefix(Enabled(rules[..i + 1]), Enabled(rules[i + 1..]), t);
    }
  }

  lemma NextDisabled(rules: seq<Rule>, i: nat)
    requires i < |rules| && !rules[i].enabled
    ensures Enabled(rules[..i + 1]) == Enabled(rules[..i])
  {
    assert rules[..i + 1][..i] == rules[..i];
  }

  lemma AppendLine(builder: string, lines: seq<string>, line: string)
    ensures builder + Unlines(lines) + (line + "\n") == builder + Unlines(lines + [line])
  {
    UnlinesAppend(lines, [line]);
    UnlinesOne(line);
    hide Unlines;
  }

  /** Writes line k of lines. */
  method WriteLine(builder: string, line: string, ghost start: string, ghost lines: seq<string>, ghost k: nat)
    returns (text: string)
    requires k < |lines| && lines[k] == line && builder == start + Unlines(lines[..k])
    ensures text == start + Unlines(lines[..k + 1])
  {
    AppendLine(start, lines[..k], line);
    hide Unlines;
    text := builder + line;
    text := text + "\n";
    assert text == builder + (line + "\n") && lines[..k] + [line] == lines[..k + 1];
  }

  method WriteRule(builder: string, f: Fields, t: Tables) returns (text: string)
    ensures text == builder + Unlines(RuleLines(f, t))
  {
    ghost var lines := RuleLines(f, t);
    assert Unlines(lines[..0]) == "" && lines[..8] == lines;
    hide Quote, Unlines;
    text := WriteLine(builder, ALERT + Quote(f.name, t), builder, lines, 0);
    text := WriteLine(text, EXPR + Quote(f.expr, t), builder, lines, 1);
    text := WriteLine(text, FOR + Quote(f.duration, t), builder, lines, 2);
    text := WriteLine(text, LABELS, builder, lines, 3);
    text := WriteLine(text, SEVERITY + Quote(f.severity, t), builder, lines, 4);
    text := WriteLine(text, ANNOTATIONS, builder, lines, 5);
    text := WriteLine(text, SUMMARY + Quote(f.summary, t), builder, lines, 6);
    text := WriteLine(text, DESCRIPTION + Quote(f.description, t), builder, lines, 7);
  }

  lemma Finished(rules: seq<Rule>, t: Tables)
    requires FirstProblem(Enabled(rules), t).None?
    ensures Rendering(rules, t) == Rendered(Document(FieldsOf(Enabled(rules)), t))
    ensures Enabled(rules) != [] ==> Written(FieldsOf(Enabled(rules)), t) == Document(FieldsOf(Enabled(rules)), t)
    ensures Enabled(rules) == []
        ==> Written(FieldsOf(Enabled(rules)), t) + "    rules: []\n" == Document(FieldsOf(Enabled(rules)), t)
  {
    hide Document, Written, FirstProblem, Enabled;
    if Enabled(rules) == [] {
      WrittenNone(t);
      assert FieldsOf(Enabled(rules)) == [];
    } else {
      WrittenAll(FieldsOf(Enabled(rules)), t);
    }
  }

  /** The loop before its first rule. */
  lemma NothingRead(rules: seq<Rule>, t: Tables)
    ensures Enabled(rules[..0]) == [] && FieldsOf([]) == [] && FirstProblem([], t).None?
    ensures Written([], t) == "groups:\n" + "  - name: custom_alerts\n"
    ensures rules[..|rules|] == rules
  {
    WrittenNone(t);
  }

  method RenderAlertRules(rules: seq<Rule>, t: Tables) returns (result: Result)
    ensures result == Rendering(rules, t)
  {
    NothingRead(rules, t);
    hide Verdict, Document, Written, Enabled, FirstProblem, Rendering, RuleLines, Unlines;
    var builder := "groups:\n" + "  - name: custom_alerts\n";
    var count := 0;
    for i := 0 to |rules|
      invariant count == |Enabled(rules[..i])|
      invariant FirstProblem(Enabled(rules[..i]), t).None?
      invariant builder == Written(FieldsOf(Enabled(rules[..i])), t)
    {
      var rule := rules[i];
      if !rule.enabled {
        NextDisabled(rules, i);
        continue;
      }
      NextEnabled(rules, i, t);
      var problem := ValidateRule(rule, t);
      if problem.Some? {
        return Failed(problem.value);
      }
      WrittenSnoc(FieldsOf(Enabled(rules[..i])), rule.fields, t);
      if count == 0 {
        builder := builder + "    rules:\n";
      }
      count := count + 1;
      builder := WriteRule(builder, rule.fields, t);
    }
    Finished(rules, t);
    if count == 0 {
      builder := builder + "    rules: []\n";
    }
    result := Rendered(builder);
  }

  // ---- What the checks and the text are, spelled out ----

  /** The bounds and words of the checks. */
  lemma AcceptedIff(rule: Rule, t: Tables)
    ensures var f := rule.fields;
            Verdict(rule, t).None?
            <==> && 1 <= Bytes(f.name) <= 128 && 1 <= Bytes(f.expr) <= 2048
                 && !Contains(Lower(f.expr, t), "admin_api") && !Contains(Lower(f.expr, t), "scrape_interval")
                 && !Contains(Lower(f.expr, t), "scrape_duration")
                 && !HasSubquery(f.expr) && IsDuration(f.duration)
                 && (f.severity == "critical" || f.severity == "warning" || f.severity == "info")
                 && Bytes(f.summary) <= 512
  {
    BytesOfText(rule.fields.name);
    BytesOfText(rule.fields.expr);
    hide Contains, HasSubquery, IsDuration, Bytes;
    var lower := Lower(rule.fields.expr, t);
    assert FORBIDDEN_TERMS == ["admin_api", "scrape_interval", "scrape_duration"];
    assert NamesForbidden(rule.fields.expr, t)
      <==> Contains(lower, "admin_api") || Contains(lower, "scrape_interval") || Contains(lower, "scrape_duration") by {
      assert FORBIDDEN_TERMS[0] == "admin_api" && FORBIDDEN_TERMS[1] == "scrape_interval";
      assert FORBIDDEN_TERMS[2] == "scrape_duration";
    }
    hide NamesForbidden;
  }

  lemma BytesOfText(s: string)
    ensures Bytes(s) >= |s| && (s == "" <==> Bytes(s) == 0)
    decreases |s|
  {
    if s != "" {
      BytesOfText(s[1..]);
    }
  }

  /** How each kind of character is quoted. */
  lemma EscapesAre(t: Tables)
    ensures EscapeChar('\"', t) == "\\\"" && EscapeChar('\\', t) == "\\\\"
    ensures EscapeChar('\n', t) == "\\n" && EscapeChar('\r', t) == "\\r" && EscapeChar('\t', t) == "\\t"
    ensures EscapeChar('\U{7}', t) == "\\a" && EscapeChar('\U{8}', t) == "\\b"
    ensures EscapeChar('\U{c}', t) == "\\f" && EscapeChar('\U{b}', t) == "\\v"
    ensures EscapeChar('\U{1f}', t) == "\\x1f" && EscapeChar('\U{7f}', t) == "\\x7f"
    ensures !t.printable('\U{2028}') ==> EscapeChar('\U{2028}', t) == "\\u2028"
    ensures !t.printable('\U{e0001}') ==> EscapeChar('\U{e0001}', t) == "\\U000e0001"
    ensures forall c :: ' ' <= c <= '~' && c != '\"' && c != '\\' ==> EscapeChar(c, t) == [c]
    ensures forall c :: c >= '\U{80}' && t.printable(c) ==> EscapeChar(c, t) == [c]
  {
    HexTexts();
    hide Hex;
  }

  lemma HexTexts()
    ensures Hex(0x1f, 2) == "1f" && Hex(0x7f, 2) == "7f" && Hex(0x2028, 4) == "2028" && Hex(0xe0001, 8) == "000e0001"
  {
    HexPair(1, "1");
    HexPair(7, "7");
    HexFour();
    HexZeros();
    HexEight();
    hide Hex;
  }

  lemma HexPair(n: nat, text: string)
    requires n < 10 && text == ["0123456789"[n]]
    ensures Hex(16 * n + 15, 2) == text + "f"
  {
    HexAdd("", 0, 0, n);
    hide Hex;
    HexAdd(text, n, 1, 15);
  }

  lemma HexFour()
    ensures Hex(0x2028, 4) == "2028"
  {
    HexAdd("", 0, 0, 2);
    hide Hex;
    HexAdd("2", 2, 1, 0);
    HexAdd("20", 0x20, 2, 2);
    HexAdd("202", 0x202, 3, 8);
  }

  lemma HexZeros()
    ensures Hex(0xe, 4) == "000e"
  {
    HexAdd("", 0, 0, 0);
    hide Hex;
    HexAdd("0", 0, 1, 0);
    HexAdd("00", 0, 2, 0);
    HexAdd("000", 0, 3, 14);
  }

  lemma HexEight()
    ensures Hex(0xe0001, 8) == "000e0001"
  {
    HexZeros();
    hide Hex;
    HexAdd("000e", 0xe, 4, 0);
    HexAdd("000e0", 0xe0, 5, 0);
    HexAdd("000e00", 0xe00, 6, 0);
    HexAdd("000e000", 0xe000, 7, 1);
  }

  lemma HexAdd(text: string, n: nat, width: nat, d: nat)
    requires Hex(n, width) == text && d < 16
    ensures Hex(16 * n + d, width + 1) == text + ["0123456789abcdef"[d]]
  {
    assert (16 * n + d) / 16 == n && (16 * n + d) % 16 == d;
  }

  /** The document of one rule, line by line. */
  lemma DocumentIs(f: Fields, t: Tables)
    ensures DocumentLines([f], t)
         == ["groups:",
             "  - name: custom_alerts",
             "    rules:",
             "      - alert: " + Quote(f.name, t),
             "        expr: " + Quote(f.expr, t),
             "        for: " + Quote(f.duration, t),
             "        labels:",
             "          severity: " + Quote(f.severity, t),
             "        annotations:",
             "          summary: " + Quote(f.summary, t),
             "          description: " + Quote(f.description, t)]
    ensures DocumentLines([], t) == ["groups:", "  - name: custom_alerts", "    rules: []"]
  {
    hide Quote;
    assert [f][1..] == [] && AllRuleLines([], t) == [];
    assert AllRuleLines([f], t) == RuleLines(f, t);
  }

  /** Which problem a rule is reported with: that of the first check it fails. */
  lemma VerdictIs(rule: Rule, t: Tables)
    ensures var f := rule.fields;
            var named, timed := 1 <= Bytes(f.name) <= 128, ExprVerdict(f.expr, t).None? && IsDuration(f.duration);
            var ranked := f.severity in {"critical", "warning", "info"};
            && (Verdict(rule, t) == Some(BadName(rule.id)) <==> !named)
            && (forall why :: Verdict(rule, t) == Some(BadExpr(f.name, why)) <==> named && ExprVerdict(f.expr, t) == Some(why))
            && (Verdict(rule, t) == Some(BadDuration(f.name))
                <==> named && ExprVerdict(f.expr, t).None? && !IsDuration(f.duration))
            && (Verdict(rule, t) == Some(BadSeverity(f.name)) <==> named && timed && !ranked)
            && (Verdict(rule, t) == Some(BadSummary(f.name)) <==> named && timed && ranked && Bytes(f.summary) > 512)
  {
    BytesOfText(rule.fields.name);
    hide ExprVerdict, IsDuration, Bytes;
  }

  lemma ExprVerdictIs(expr: string, t: Tables)
    ensures ExprVerdict(expr, t) == Some(Required) <==> expr == ""
    ensures ExprVerdict(expr, t) == Some(TooLong) <==> Bytes(expr) > 2048
    ensures ExprVerdict(expr, t) == Some(Forbidden) <==> 1 <= Bytes(expr) <= 2048 && NamesForbidden(expr, t)
    ensures ExprVerdict(expr, t) == Some(Subquery)
       <==> 1 <= Bytes(expr) <= 2048 && !NamesForbidden(expr, t) && HasSubquery(expr)
  {
    BytesOfText(expr);
    hide NamesForbidden, HasSubquery, Bytes;
  }
}
