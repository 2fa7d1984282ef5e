/** The LaunchAgent property list the installer writes and the start command reads back
    (`src/commands/launch_agent.rs`). */
module Plist {
  import opened Protocol
  import opened Text
  import Path = HookCommand

  // ---- Entities ----

  const SPECIAL: set<char> := {'&', '<', '>', '"', '\''}

  function Entity(c: char): string
    requires c in SPECIAL
  {
    if c == '&' then "&amp;"
    else if c == '<' then "&lt;"
    else if c == '>' then "&gt;"
    else if c == '"' then "&quot;"
    else "&apos;"
  }

  /** What one character is written as while the characters of `escaped` still stand as entities. */
  function Unit(c: char, escaped: set<char>): string
    requires escaped <= SPECIAL
  {
    if c in escaped then Entity(c) else [c]
  }

  /** The text with the characters of `escaped` written as entities. */
  function Escaped(s: string, escaped: set<char>): string
    requires escaped <= SPECIAL
  {
    if s == "" then "" else Unit(s[0], escaped) + Escaped(s[1..], escaped)
  }

  method XmlEscape(s: string) returns (out: string)
    ensures out == Escaped(s, SPECIAL)
  {
    out := "";
    for i := 0 to |s|
      invariant out + Escaped(s[i..], SPECIAL) == Escaped(s, SPECIAL)
    {
      ghost var before, rest := out, Escaped(s[i + 1..], SPECIAL);
      EscapedStep(s, i);
      var unit := EscapeChar(s[i]);
      out := out + unit;
      assert out + rest == before + (unit + rest);
    }
  }

  method EscapeChar(c: char) returns (unit: string)
    ensures unit == Unit(c, SPECIAL)
  {
    match c {
      case '&' => unit := "&amp;";
      case '<' => unit := "&lt;";
      case '>' => unit := "&gt;";
      case '"' => unit := "&quot;";
      case '\'' => unit := "&apos;";
      case _ => unit := [c];
    }
  }

  lemma EscapedStep(s: string, i: nat)
    requires i < |s|
    ensures Escaped(s[i..], SPECIAL) == Unit(s[i], SPECIAL) + Escaped(s[i + 1..], SPECIAL)
  {
    assert s[i..][1..] == s[i + 1..];
  }

  /** Replacing the entities of the given characters, one after the other. */
  function UnescapeInOrder(s: string, order: seq<char>): string
    requires forall c <- order :: c in SPECIAL
    decreases |order|
  {
    if order == [] then s
    else UnescapeInOrder(Replace(s, Entity(order[0]), [order[0]]), order[1..])
  }

  const UNESCAPE_ORDER: seq<char> := ['<', '>', '"', '\'', '&']

  /** `xml_unescape`: five replacements, the ampersand's last. */
  function XmlUnescape(s: string): string {
    UnescapeInOrder(s, UNESCAPE_ORDER)
  }

  /** While the ampersands are still escaped, no other unit can hide the start of an entity. */
  lemma UnitSkips(x: char, c: char, escaped: set<char>)
    requires escaped <= SPECIAL && c in escaped && x != c && '&' in escaped
    ensures Skips(Unit(x, escaped), Entity(c))
  {
    var unit, pat := Unit(x, escaped), Entity(c);
    forall i: nat | i < |unit| ensures DiffersAt(unit, i, pat) {
      if i > 0 || x !in escaped {
        assert unit[i + 0] != pat[0];
      } else {
        EntitiesDiffer(x, c);
        var k: nat :| k < |Entity(x)| && k < |pat| && Entity(x)[k] != pat[k];
        assert unit[0 + k] != pat[k];
      }
    }
  }

  lemma EntitiesDiffer(x: char, c: char)
    requires x in SPECIAL && c in SPECIAL && x != c
    ensures exists k: nat :: k < |Entity(x)| && k < |Entity(c)| && Entity(x)[k] != Entity(c)[k]
  {
    var a, b := Entity(x), Entity(c);
    assert a[1] != b[1] || a[2] != b[2];
  }

  /** One replacement takes one kind of entity out and disturbs nothing else, as long as the ampersand
      is taken out last. */
  lemma {:induction false} ReplaceUnescapes(s: string, c: char, escaped: set<char>)
    requires escaped <= SPECIAL && c in escaped && '&' in escaped && (c == '&' ==> escaped == {'&'})
    ensures Replace(Escaped(s, escaped), Entity(c), [c]) == Escaped(s, escaped - {c})
  {
    if s != "" {
      var x, rest := s[0], Escaped(s[1..], escaped);
      ReplaceUnescapes(s[1..], c, escaped);
      if x == c {
        ReplaceHere(Entity(c), rest, [c]);
      } else {
        UnitSkips(x, c, escaped);
        ReplaceSkips(Unit(x, escaped), rest, Entity(c), [c]);
      }
    }
  }

  /** Any order that treats each character once and the ampersand last undoes the escaping. */
  lemma {:induction false} UnescapeFromOrder(s: string, order: seq<char>, escaped: set<char>)
    requires escaped == (set c <- order) && escaped <= SPECIAL
    requires forall i, j :: 0 <= i < j < |order| ==> order[i] != order[j]
    requires order != [] ==> order[|order| - 1] == '&'
    ensures UnescapeInOrder(Escaped(s, escaped), order) == s
  {
    if order == [] {
      assert escaped == {};
      NothingEscaped(s);
    } else {
      var c, rest := order[0], order[1..];
      assert '&' == order[|order| - 1] && '&' in escaped;
      assert (set x <- rest) == escaped - {c};
      ReplaceUnescapes(s, c, escaped);
      UnescapeFromOrder(s, rest, escaped - {c});
    }
  }

  /** Unescaping undoes escaping, for every text. */
  lemma UnescapeInvertsEscape(s: string)
    ensures XmlUnescape(Escaped(s, SPECIAL)) == s
  {
    var order := UNESCAPE_ORDER;
    assert (set c <- order) == SPECIAL by {
      assert order[0] == '<' && order[1] == '>' && order[2] == '"' && order[3] == '\'' && order[4] == '&';
    }
    UnescapeFromOrder(s, order, SPECIAL);
  }

  lemma {:induction false} NothingEscaped(s: string)
    ensures Escaped(s, {}) == s
  {
    if s != "" { NothingEscaped(s[1..]); }
  }

  /** Taking the ampersand out first would be wrong: the text `&lt;` would come back as `<`. */
  lemma AmpersandMustComeLast()
    ensures Replace(Replace(Escaped("&lt;", SPECIAL), "&amp;", "&"), "&lt;", "<") == "<"
  {
    assert Escaped("&lt;", SPECIAL) == "&amp;lt;" by {
      NothingSpecial("lt;");
      assert "&lt;"[1..] == "lt;";
    }
    assert "&amp;lt;" == "&amp;" + "lt;";
    ReplaceHere("&amp;", "lt;", "&");
    assert Replace("lt;", "&amp;", "&") == "lt;";
    assert "&" + "lt;" == "&lt;" + "";
    ReplaceHere("&lt;", "", "<");
  }

  lemma {:induction false} NothingSpecial(s: string)
    requires forall c <- s :: c !in SPECIAL
    ensures Escaped(s, SPECIAL) == s
  {
    if s != "" { NothingSpecial(s[1..]); }
  }

  // ---- Plain text and tags ----

  predicate Plain(s: string) {
    '<' !in s
  }

  lemma {:induction false} EscapedIsPlain(s: string)
    ensures Plain(Escaped(s, SPECIAL))
  {
    if s != "" { EscapedIsPlain(s[1..]); }
  }

  lemma PlainSkips(s: string, pat: string)
    requires Plain(s) && pat != "" && pat[0] == '<'
    ensures Skips(s, pat)
  {
    forall i: nat | i < |s| ensures DiffersAt(s, i, pat) {
      assert s[i + 0] != pat[0];
    }
  }

  /** A tag with text before and after it, when the tag differs from the pattern at `k`. */
  lemma TagSkips(lead: string, tag: string, text: string, pat: string, k: nat)
    requires Plain(lead) && Plain(text)
    requires |tag| > 0 && Plain(tag[1..]) && pat != "" && pat[0] == '<'
    requires k < |tag| && k < |pat| && tag[k] != pat[k]
    ensures Skips(lead + tag + text, pat)
  {
    forall i: nat | i < |tag| ensures DiffersAt(tag, i, pat) {
      if i > 0 {
        assert tag[i] == tag[1..][i - 1];
        assert tag[i + 0] != pat[0];
      } else {
        assert tag[0 + k] != pat[k];
      }
    }
    PlainSkips(lead, pat);
    PlainSkips(text, pat);
    SkipsConcat(lead, tag, pat);
    SkipsConcat(lead + tag, text, pat);
  }

  // ---- The rendered document ----

  function TagLine(indent: string, tag: string): string {
    indent + tag + "\n"
  }

  function KeyText(key: string): string {
    "<key>" + key + "</key>"
  }

  function KeyLine(indent: string, key: string): string {
    indent + KeyText(key) + "\n"
  }

  function StringLine(indent: string, value: string): string {
    indent + "<string>" + value + "</string>" + "\n"
  }

  type Env = seq<(string, string)>

  const IN1: string := "    "
  const IN2: string := "        "

  // The document's lines, around texts that are escaped already.

  function Preamble(jobLabel: string): seq<string> {
    [ TagLine("", XML_DECLARATION),
      TagLine("", DOCTYPE),
      TagLine("", "<plist version=\"1.0\">"),
      TagLine("", "<dict>"),
      KeyLine(IN1, "Label"),
      StringLine(IN1, jobLabel) ]
  }

  const XML_DECLARATION := "<?xml" + " version=\"1.0\" encoding=\"UTF-8\"?>"
  const DOCTYPE := "<!DOCTYPE" + (" plist PUBLIC " + PUBLIC_ID + SYSTEM_ID + ">")
  const PUBLIC_ID := "\"-//Apple//DTD PLIST 1.0//EN\" "
  const SYSTEM_ID := "\"http://www.apple.com/DTDs/" + "PropertyList-1.0.dtd\""

  function ProgramBlock(daemon: string): seq<string> {
    [ KeyLine(IN1, "ProgramArguments"),
      TagLine(IN1, "<array>"),
      StringLine(IN2, daemon),
      TagLine(IN1, "</array>") ]
  }

  function EnvBlock(inner: seq<string>): seq<string> {
    if inner == [] then []
    else [KeyLine(IN1, "EnvironmentVariables"), TagLine(IN1, "<dict>")] + inner + [TagLine(IN1, "</dict>")]
  }

  function LaunchBlock(): seq<string> {
    [ KeyLine(IN1, "RunAtLoad"),
      TagLine(IN1, "<true/>"),
      KeyLine(IN1, "KeepAlive"),
      TagLine(IN1, "<dict>"),
      KeyLine(IN2, "SuccessfulExit"),
      TagLine(IN2, "<false/>"),
      TagLine(IN1, "</dict>") ]
  }

  function LogBlock(outLog: string, errLog: string): seq<string> {
    [ KeyLine(IN1, "StandardOutPath"),
      StringLine(IN1, outLog),
      KeyLine(IN1, "StandardErrorPath"),
      StringLine(IN1, errLog),
      TagLine("", "</dict>"),
      TagLine("", "</plist>") ]
  }

  function Document(labelText: string, daemonText: string, inner: seq<string>, outText: string, errText: string): string {
    Concat(Preamble(labelText)) + Concat(ProgramBlock(daemonText)) + Concat(EnvBlock(inner)) +
    (Concat(LaunchBlock()) + Concat(LogBlock(outText, errText)))
  }

  function EnvLines(env: Env): seq<string> {
    if env == [] then []
    else [KeyLine(IN2, Escaped(env[0].0, SPECIAL)), StringLine(IN2, Escaped(env[0].1, SPECIAL))] + EnvLines(env[1..])
  }

  /** Joining a relative file name to a directory path. */
  function JoinPath(dir: string, name: string): string {
    if dir == "" || dir[|dir| - 1] == '/' then dir + name else dir + "/" + name
  }

  /** The joined path names the file, in the directory given. */
  lemma JoinedPathNamesTheFile(dir: string, name: string)
    requires Path.IsName(name)
    ensures Path.FileName(JoinPath(dir, name)) == Some(name)
    ensures JoinPath(dir, name) == dir + name || JoinPath(dir, name) == dir + "/" + name
    ensures |JoinPath(dir, name)| > |name| ==> JoinPath(dir, name)[|JoinPath(dir, name)| - |name| - 1] == '/'
  {
    var upTo := if Path.IsDirectory(dir) then dir else dir + "/";
    assert JoinPath(dir, name) == upTo + name;
    Path.FileNameStep(upTo, name);
  }

  function Rendered(jobLabel: string, daemon: string, dataDir: string, env: Env): string {
    Document(
      Escaped(jobLabel, SPECIAL),
      Escaped(daemon, SPECIAL),
      EnvLines(env),
      Escaped(JoinPath(dataDir, "daemon.out.log"), SPECIAL),
      Escaped(JoinPath(dataDir, "daemon.err.log"), SPECIAL))
  }

  method RenderLaunchAgentPlist(jobLabel: string, daemon: string, dataDir: string, env: Env) returns (xml: string)
    ensures xml == Rendered(jobLabel, daemon, dataDir, env)
  {
    var labelText := XmlEscape(jobLabel);
    var daemonText := XmlEscape(daemon);
    var outText := XmlEscape(JoinPath(dataDir, "daemon.out.log"));
    var errText := XmlEscape(JoinPath(dataDir, "daemon.err.log"));
    var inner := RenderEnvLines(env);
    xml := Document(labelText, daemonText, inner, outText, errText);
  }

  method RenderEnvLines(env: Env) returns (inner: seq<string>)
    ensures inner == EnvLines(env)
  {
    inner := [];
    assert env[0..] == env;
    for i := 0 to |env|
      invariant inner + EnvLines(env[i..]) == EnvLines(env)
    {
      var k := XmlEscape(env[i].0);
      var v := XmlEscape(env[i].1);
      assert env[i..][1..] == env[i + 1..];
      ghost var before, pair := inner, [KeyLine(IN2, k), StringLine(IN2, v)];
      inner := inner + [KeyLine(IN2, k), StringLine(IN2, v)];
      assert inner + EnvLines(env[i + 1..]) == before + (pair + EnvLines(env[i + 1..]));
    }
  }

  // ---- Reading it back ----

  datatype Span = Span(from: nat, to: nat)

  /** The text between the first `open` at or after `idx` and the first `close` after it. */
  function Between(s: string, idx: nat, open: string, close: string): (r: Option<Span>)
    requires idx <= |s|
    ensures r.Some? ==> idx + |open| <= r.value.from <= r.value.to && r.value.to + |close| <= |s|
  {
    match Find(s[idx..], open)
    case None => None
    case Some(i) =>
      var from := idx + i + |open|;
      match Find(s[from..], close)
      case None => None
      case Some(n) => Some(Span(from, from + n))
  }

  /** The tags around a dictionary's keys and string values, and the order in which entities are undone. */
  datatype Markup = Markup(keyOpen: string, keyClose: string, stringOpen: string, stringClose: string, order: seq<char>)

  const PLIST := Markup("<key>", "</key>", "<string>", "</string>", UNESCAPE_ORDER)

  predicate HasTags(m: Markup) {
    && m.keyOpen != "" && m.keyClose != "" && m.stringOpen != "" && m.stringClose != ""
    && forall c <- m.order :: c in SPECIAL
  }

  datatype Pair = Pair(key: string, val: string, next: nat)

  /** The texts of the first key and of the string after it, at or after `idx`, and the position after them. */
  function PairAt(m: Markup, body: string, idx: nat): (r: Option<Pair>)
    requires idx <= |body| && HasTags(m)
    ensures r.Some? ==> idx < r.value.next <= |body|
  {
    match Between(body, idx, m.keyOpen, m.keyClose)
    case None => None
    case Some(k) =>
      match Between(body, k.to + |m.keyClose|, m.stringOpen, m.stringClose)
      case None => None
      case Some(v) => Some(Pair(body[k.from..k.to], body[v.from..v.to], v.to + |m.stringClose|))
  }

  /** The key and string texts of a dictionary body from `idx` on, unescaped. */
  function ScanPairs(m: Markup, body: string, idx: nat): Env
    requires idx <= |body| && HasTags(m)
    decreases |body| - idx
  {
    match PairAt(m, body, idx)
    case None => []
    case Some(p) => [(UnescapeInOrder(p.key, m.order), UnescapeInOrder(p.val, m.order))] + ScanPairs(m, body, p.next)
  }

  predicate IsTagPair(open: string, close: string) {
    |open| > 1 && |close| > 1 && open[0] == '<' && Plain(open[1..]) && close[0] == '<' && open[1] != close[1]
  }

  /** Two different tags do not overlap. */
  lemma TagsDoNotOverlap(s: string, open: string, close: string, i: nat, j: nat)
    requires IsTagPair(open, close) && OccursAt(s, i, open) && OccursAt(s, j, close) && i <= j
    ensures i + |open| <= j
  {
    assert s[i..i + |open|][1] == s[i + 1] && s[j..j + |close|][1] == s[j + 1];
    assert s[j..j + |close|][0] == s[j];
    assert forall k :: i < k < i + |open| ==> s[k] == open[1..][k - i - 1];
  }

  /** The text between the first `open` and the first `close` that follow the first occurrence of a key. */
  function Section(xml: string, key: string, open: string, close: string): Option<string>
    requires IsTagPair(open, close)
  {
    match Find(xml, key)
    case None => None
    case Some(at) =>
      var rest := xml[at..];
      FindIsFirst(rest, open);
      FindIsFirst(rest, close);
      match (Find(rest, open), Find(rest, close))
      case (Some(i), Some(j)) =>
        if j < i then None
        else
          TagsDoNotOverlap(rest, open, close, i, j);
          Some(rest[i + |open|..j])
      case (_, _) => None
  }

  const ENV_KEY := KeyText("EnvironmentVariables")
  const PROGRAM_KEY := KeyText("ProgramArguments")

  /** `parse_plist_environment`, as one expression. */
  function EnvironmentOf(xml: string): Env {
    match Section(xml, ENV_KEY, "<dict>", "</dict>")
    case None => []
    case Some(body) => ScanPairs(PLIST, body, 0)
  }

  method ParsePlistEnvironment(xml: string) returns (out: Env)
    ensures out == EnvironmentOf(xml)
  {
    var body := Section(xml, ENV_KEY, "<dict>", "</dict>");
    if body.None? { return []; }
    out := WalkPairs(PLIST, body.value);
  }

  method WalkPairs(m: Markup, body: string) returns (out: Env)
    requires HasTags(m)
    ensures out == ScanPairs(m, body, 0)
  {
    out := [];
    var idx := 0;
    ghost var all := ScanPairs(m, body, 0);
    while true
      invariant 0 <= idx <= |body|
      invariant out + ScanPairs(m, body, idx) == all
      decreases |body| - idx
    {
      var p := PairAt(m, body, idx);
      if p.None? { break; }
      var key := UnescapeInOrder(p.value.key, m.order);
      var val := UnescapeInOrder(p.value.val, m.order);
      ScanUnfold(m, body, idx, key, val, p.value);
      Shifted(out, (key, val), ScanPairs(m, body, p.value.next));
      out, idx := out + [(key, val)], p.value.next;
    }
  }

  lemma Shifted<T>(before: seq<T>, x: T, rest: seq<T>)
    ensures before + ([x] + rest) == (before + [x]) + rest
  {
  }

  lemma Resliced(s: string, i: nat, n: nat)
    requires i + n <= |s|
    ensures s[i..][n..] == s[i + n..] && s[i..][..n] == s[i..i + n]
  {
  }

  /** `parse_plist_program`. */
  function ParsePlistProgram(xml: string): Option<string> {
    match Section(xml, PROGRAM_KEY, "<array>", "</array>")
    case None => None
    case Some(body) =>
      match Between(body, 0, "<string>", "</string>")
      case None => None
      case Some(p) => Some(XmlUnescape(body[p.from..p.to]))
  }

  // ---- The round trip: every `<` of the document is one of its own tags' ----

  lemma TagLineSkips(indent: string, tag: string, pat: string, k: nat)
    requires Plain(indent) && |tag| > 0 && Plain(tag[1..]) && pat != "" && pat[0] == '<'
    requires k < |tag| && k < |pat| && tag[k] != pat[k]
    ensures Skips(TagLine(indent, tag), pat)
  {
    TagSkips(indent, tag, "\n", pat, k);
  }

  lemma StringLineSkips(indent: string, value: string, pat: string)
    requires Plain(indent) && Plain(value)
    requires |pat| > 2 && pat[0] == '<' && pat[1] != 's' && (pat[1] != '/' || pat[2] != 's')
    ensures Skips(StringLine(indent, value), pat)
  {
    TagSkips(indent, "<string>", value, pat, 1);
    TagSkips("", "</string>", "\n", pat, if pat[1] == '/' then 2 else 1);
    SkipsConcat(indent + "<string>" + value, "" + "</string>" + "\n", pat);
    assert StringLine(indent, value) == (indent + "<string>" + value) + ("" + "</string>" + "\n");
  }

  lemma KeyTextSkips(key: string, pat: string)
    requires Plain(key) && |pat| > 5 && pat[0] == '<'
    requires pat[1] != '/' || pat[2] != 'k'
    requires pat[1] != 'k' || (key != "" && key[0] != pat[5])
    ensures Skips(KeyText(key), pat)
  {
    var tag := "<key>" + key;
    assert tag[1..] == "key>" + key;
    TagSkips("", tag, "", pat, if pat[1] == 'k' then 5 else 1);
    TagSkips("", "</key>", "", pat, if pat[1] == '/' then 2 else 1);
    SkipsConcat("" + tag + "", "" + "</key>" + "", pat);
    assert KeyText(key) == ("" + tag + "") + ("" + "</key>" + "");
  }

  lemma KeyLineSkips(indent: string, key: string, pat: string)
    requires Plain(indent) && Plain(key) && |pat| > 5 && pat[0] == '<'
    requires pat[1] != '/' || pat[2] != 'k'
    requires pat[1] != 'k' || (key != "" && key[0] != pat[5])
    ensures Skips(KeyLine(indent, key), pat)
  {
    KeyTextSkips(key, pat);
    PlainSkips(indent, pat);
    PlainSkips("\n", pat);
    SkipsConcat(indent, KeyText(key), pat);
    SkipsConcat(indent + KeyText(key), "\n", pat);
  }

  lemma {:induction false} FirstDifference(a: string, b: string) returns (j: nat)
    requires a != b
    ensures j <= |a| && j <= |b| && a[..j] == b[..j] && (j == |a| || j == |b| || a[j] != b[j]) && (j < |a| || j < |b|)
  {
    if a == "" || b == "" || a[0] != b[0] {
      j := 0;
    } else {
      j := FirstDifference(a[1..], b[1..]);
      j := j + 1;
      assert a == [a[0]] + a[1..] && b == [b[0]] + b[1..];
      assert a[..j] == [a[0]] + a[1..][..j - 1] && b[..j] == [b[0]] + b[1..][..j - 1];
    }
  }

  lemma KeyTextsDiffer(a: string, b: string)
    requires Plain(a) && Plain(b) && a != b
    ensures DiffersAt(KeyText(a), 0, KeyText(b))
  {
    var j := FirstDifference(a, b);
    var s, pat := "<key>" + a + "</key>", "<key>" + b + "</key>";
    assert s[5 + j] == (if j < |a| then a[j] else '<') && pat[5 + j] == (if j < |b| then b[j] else '<');
    assert s[0 + (5 + j)] != pat[5 + j];
  }

  /** No key is mistaken for another. */
  lemma OtherKeySkips(indent: string, a: string, b: string)
    requires Plain(indent) && Plain(a) && Plain(b) && a != b
    ensures Skips(KeyLine(indent, a), KeyText(b))
  {
    var pat, open := KeyText(b), "<key>" + a;
    KeyTextsDiffer(a, b);
    assert pat[0] == '<' && pat[1] == 'k';
    PlainSkips(indent, pat);
    PlainSkips("\n", pat);
    KeyTextInside(a, pat);
    SkipsConcat(indent, KeyText(a), pat);
    SkipsConcat(indent + KeyText(a), "\n", pat);
  }

  lemma KeyTextInside(a: string, pat: string)
    requires Plain(a) && |pat| > 1 && pat[0] == '<' && pat[1] == 'k' && DiffersAt(KeyText(a), 0, pat)
    ensures Skips(KeyText(a), pat)
  {
    var s := KeyText(a);
    forall i: nat | i < |s| ensures DiffersAt(s, i, pat) {
      if i > 0 {
        if i == 5 + |a| {
          assert s[i + 1] == '/' && s[i + 1] != pat[1];
        } else {
          assert s[i] == if i < 5 then "<key>"[i] else if i < 5 + |a| then a[i - 5] else "</key>"[i - 5 - |a|];
          assert s[i + 0] != pat[0];
        }
      }
    }
  }

  lemma OtherTagSkips(indent: string, tag: string, b: string)
    requires Plain(indent) && |tag| > 1 && Plain(tag[1..]) && tag[1] != 'k'
    ensures Skips(TagLine(indent, tag), KeyText(b))
  {
    TagLineSkips(indent, tag, KeyText(b), 1);
  }

  lemma OtherStringSkips(indent: string, value: string, b: string)
    requires Plain(indent) && Plain(value)
    ensures Skips(StringLine(indent, value), KeyText(b))
  {
    StringLineSkips(indent, value, KeyText(b));
  }

  lemma IdsArePlain()
    ensures Plain(PUBLIC_ID) && Plain(SYSTEM_ID)
  {
    assert Plain("\"http://www.apple.com/DTDs/") && Plain("PropertyList-1.0.dtd\"");
  }

  lemma XmlDeclarationSkips(pat: string)
    requires |pat| > 5 && pat[0] == '<' && pat[1] == 'k'
    ensures Skips(TagLine("", XML_DECLARATION), pat)
  {
    var version := " version=\"1.0\" encoding=\"UTF-8\"?>";
    assert Plain(version);
    HeaderLineSkips("<?xml", version, pat);
  }

  lemma DoctypeSkips(pat: string)
    requires |pat| > 5 && pat[0] == '<' && pat[1] == 'k'
    ensures Skips(TagLine("", DOCTYPE), pat)
  {
    IdsArePlain();
    HeaderLineSkips("<!DOCTYPE", " plist PUBLIC " + PUBLIC_ID + SYSTEM_ID + ">", pat);
  }

  lemma HeaderLineSkips(tag: string, rest: string, pat: string)
    requires |tag| > 1 && Plain(tag[1..]) && Plain(rest) && |pat| > 1 && pat[0] == '<' && pat[1] != tag[1]
    ensures Skips(TagLine("", tag + rest), pat)
  {
    TagSkips("", tag, rest + "\n", pat, 1);
    assert "" + tag + (rest + "\n") == TagLine("", tag + rest);
  }

  lemma HeaderSkips(b: string)
    ensures Skips(Concat(Preamble("")[..4]), KeyText(b))
  {
    var lines := Preamble("")[..4];
    assert KeyText(b)[0] == '<' && KeyText(b)[1] == 'k';
    XmlDeclarationSkips(KeyText(b));
    DoctypeSkips(KeyText(b));
    OtherTagSkips("", "<plist version=\"1.0\">", b);
    OtherTagSkips("", "<dict>", b);
    ConcatSkips(lines, KeyText(b));
  }

  lemma PreambleSkips(labelText: string, b: string)
    requires Plain(labelText) && Plain(b) && b != "Label"
    ensures Skips(Concat(Preamble(labelText)), KeyText(b))
  {
    var lines := Preamble(labelText);
    HeaderSkips(b);
    ConcatAppend(lines[..4], lines[4..]);
    assert lines == lines[..4] + lines[4..] && lines[..4] == Preamble("")[..4];
    OtherKeySkips(IN1, "Label", b);
    OtherStringSkips(IN1, labelText, b);
    ConcatSkips(lines[4..], KeyText(b));
    SkipsConcat(Concat(lines[..4]), Concat(lines[4..]), KeyText(b));
  }

  lemma ProgramBlockSkips(daemonText: string, b: string)
    requires Plain(daemonText) && Plain(b) && b != "ProgramArguments"
    ensures Skips(Concat(ProgramBlock(daemonText)), KeyText(b))
  {
    OtherKeySkips(IN1, "ProgramArguments", b);
    OtherTagSkips(IN1, "<array>", b);
    OtherStringSkips(IN2, daemonText, b);
    OtherTagSkips(IN1, "</array>", b);
    ConcatSkips(ProgramBlock(daemonText), KeyText(b));
  }

  lemma LaunchBlockSkips(b: string)
    requires Plain(b) && b != "RunAtLoad" && b != "KeepAlive" && b != "SuccessfulExit"
    ensures Skips(Concat(LaunchBlock()), KeyText(b))
  {
    OtherKeySkips(IN1, "RunAtLoad", b);
    OtherTagSkips(IN1, "<true/>", b);
    OtherKeySkips(IN1, "KeepAlive", b);
    OtherTagSkips(IN1, "<dict>", b);
    OtherKeySkips(IN2, "SuccessfulExit", b);
    OtherTagSkips(IN2, "<false/>", b);
    OtherTagSkips(IN1, "</dict>", b);
    ConcatSkips(LaunchBlock(), KeyText(b));
  }

  lemma LogBlockSkips(outText: string, errText: string, b: string)
    requires Plain(outText) && Plain(errText) && Plain(b) && b != "StandardOutPath" && b != "StandardErrorPath"
    ensures Skips(Concat(LogBlock(outText, errText)), KeyText(b))
  {
    OtherKeySkips(IN1, "StandardOutPath", b);
    OtherStringSkips(IN1, outText, b);
    OtherKeySkips(IN1, "StandardErrorPath", b);
    OtherStringSkips(IN1, errText, b);
    OtherTagSkips("", "</dict>", b);
    OtherTagSkips("", "</plist>", b);
    ConcatSkips(LogBlock(outText, errText), KeyText(b));
  }

  lemma FindTwo(rest: string, head: string, open: string, body: string, close: string, after: string)
    requires open != "" && close != ""
    requires Skips(head, open) && Skips(head, close) && Skips(open + body, close)
    requires rest == head + open + (body + close + after)
    ensures Find(rest, open) == Some(|head|)
    ensures Find(rest, close) == Some(|head| + |open| + |body|)
    ensures rest[|head| + |open|..|head| + |open| + |body|] == body
  {
    FindHere(rest, head, open, body + close + after);
    FindSecond(rest, head, open, body, close, after);
  }

  lemma FindSecond(rest: string, head: string, open: string, body: string, close: string, after: string)
    requires close != "" && Skips(head, close) && Skips(open + body, close)
    requires rest == head + open + (body + close + after)
    ensures Find(rest, close) == Some(|head| + |open| + |body|)
    ensures rest[|head| + |open|..|head| + |open| + |body|] == body
  {
    var lead := head + (open + body);
    SkipsConcat(head, open + body, close);
    Reassociated(head, open, body, close, after);
    FindHere(rest, lead, close, after);
    assert rest[..|lead|][|head| + |open|..] == body;
  }

  lemma Reassociated(a: string, b: string, c: string, d: string, e: string)
    ensures a + b + (c + d + e) == a + (b + c) + d + e
  {
  }

  lemma SectionHere(before: string, key: string, mid: string, open: string, body: string, close: string, after: string)
    requires IsTagPair(open, close) && key != ""
    requires Skips(before, key) && Skips(key + mid, open) && Skips(key + mid, close) && Skips(open + body, close)
    ensures Section(before + (key + mid + open + (body + close + after)), key, open, close) == Some(body)
  {
    var rest := key + mid + open + (body + close + after);
    var tail := mid + open + (body + close + after);
    assert rest == key + tail;
    FindHere(before + rest, before, key, tail);
    FindTwo(rest, key + mid, open, body, close, after);
  }

  lemma NoSection(xml: string, key: string, open: string, close: string)
    requires IsTagPair(open, close) && key != "" && Skips(xml, key)
    ensures Section(xml, key, open, close) == None
  {
    FindSkips(xml, "", key);
    assert xml + "" == xml;
  }

  /** A pattern found in a suffix of the text, and what follows it. */
  lemma FindInSuffix(s: string, idx: nat, lead: string, pat: string, tail: string)
    requires idx <= |s| && pat != "" && Skips(lead, pat) && s[idx..] == lead + pat + tail
    ensures Find(s[idx..], pat) == Some(|lead|) && idx + |lead| + |pat| <= |s|
    ensures s[idx..idx + |lead|] == lead && s[idx + |lead| + |pat|..] == tail
  {
    var suffix := s[idx..];
    FindHere(suffix, lead, pat, tail);
    Resliced(s, idx, |lead|);
    Resliced(s, idx, |lead| + |pat|);
  }

  lemma BetweenHere(s: string, idx: nat, lead: string, open: string, text: string, close: string, rest: string, tail: string)
    requires idx <= |s| && open != "" && close != ""
    requires Skips(lead, open) && Skips(text, close)
    requires s[idx..] == lead + open + tail && tail == text + close + rest
    ensures var r := Between(s, idx, open, close);
      r.Some? && s[r.value.from..r.value.to] == text && s[r.value.to + |close|..] == rest
  {
    FindInSuffix(s, idx, lead, open, tail);
    FindInSuffix(s, idx + |lead| + |open|, text, close, rest);
  }

  lemma EscapedSkips(s: string, pat: string)
    requires pat != "" && pat[0] == '<'
    ensures Skips(Escaped(s, SPECIAL), pat)
  {
    EscapedIsPlain(s);
    PlainSkips(Escaped(s, SPECIAL), pat);
  }

  /** One environment pair as it stands in the text, before `rest`. */
  function PairText(m: Markup, lead: string, k: string, mid: string, v: string, rest: string): string {
    lead + m.keyOpen + (k + m.keyClose + (mid + m.stringOpen + (v + m.stringClose + rest)))
  }

  lemma SpanHere(s: string, idx: nat, lead: string, open: string, text: string, close: string, rest: string) returns (p: Span)
    requires idx <= |s| && open != "" && close != ""
    requires Skips(lead, open) && Skips(text, close) && s[idx..] == lead + open + (text + close + rest)
    ensures Between(s, idx, open, close) == Some(p) && p.from <= p.to && p.to + |close| <= |s|
    ensures s[p.from..p.to] == text && s[p.to + |close|..] == rest
  {
    BetweenHere(s, idx, lead, open, text, close, rest, text + close + rest);
    p := Between(s, idx, open, close).value;
  }

  lemma PairAtHere(m: Markup, body: string, idx: nat, lead: string, k: string, mid: string, v: string, rest: string)
    requires idx <= |body| && HasTags(m)
    requires Skips(lead, m.keyOpen) && Skips(k, m.keyClose) && Skips(mid, m.stringOpen) && Skips(v, m.stringClose)
    requires body[idx..] == PairText(m, lead, k, mid, v, rest)
    ensures var p := PairAt(m, body, idx);
      p.Some? && p.value.key == k && p.value.val == v && body[p.value.next..] == rest
  {
    var ks := SpanHere(body, idx, lead, m.keyOpen, k, m.keyClose, mid + m.stringOpen + (v + m.stringClose + rest));
    var vs := SpanHere(body, ks.to + |m.keyClose|, mid, m.stringOpen, v, m.stringClose, rest);
    PairOfSpans(m, body, idx, ks, vs);
  }

  lemma PairOfSpans(m: Markup, body: string, idx: nat, ks: Span, vs: Span)
    requires idx <= |body| && HasTags(m) && Between(body, idx, m.keyOpen, m.keyClose) == Some(ks)
    requires Between(body, ks.to + |m.keyClose|, m.stringOpen, m.stringClose) == Some(vs)
    ensures PairAt(m, body, idx) == Some(Pair(body[ks.from..ks.to], body[vs.from..vs.to], vs.to + |m.stringClose|))
  {
  }

  lemma EnvLinesUnfold(env: Env)
    requires env != []
    ensures Concat(EnvLines(env)) ==
      KeyLine(IN2, Escaped(env[0].0, SPECIAL)) + StringLine(IN2, Escaped(env[0].1, SPECIAL)) + Concat(EnvLines(env[1..]))
  {
    var lines := [KeyLine(IN2, Escaped(env[0].0, SPECIAL)), StringLine(IN2, Escaped(env[0].1, SPECIAL))];
    ConcatAppend(lines, EnvLines(env[1..]));
    assert lines[1..] == [lines[1]] && lines[1..][1..] == [];
    assert Concat(lines) == lines[0] + lines[1];
  }

  lemma FirstPairText(lead: string, env: Env, tail: string)
    requires env != []
    ensures lead + (Concat(EnvLines(env)) + tail) ==
      PairText(PLIST, lead + IN2, Escaped(env[0].0, SPECIAL), "\n" + IN2, Escaped(env[0].1, SPECIAL),
               "\n" + (Concat(EnvLines(env[1..])) + tail))
  {
    EnvLinesUnfold(env);
    LayOut(lead, IN2, "<key>", Escaped(env[0].0, SPECIAL), "</key>", "\n", "<string>", Escaped(env[0].1, SPECIAL), "</string>",
      Concat(EnvLines(env[1..])), tail);
  }

  lemma LayOut(lead: string, i: string, k1: string, k: string, k2: string, nl: string, s1: string, v: string, s2: string,
               rest: string, tail: string)
    ensures lead + ((i + (k1 + k + k2) + nl) + (i + s1 + v + s2 + nl) + rest + tail) ==
      lead + i + k1 + (k + k2 + (nl + i + s1 + (v + s2 + (nl + (rest + tail)))))
  {
  }

  lemma FirstPair(body: string, idx: nat, lead: string, env: Env, tail: string)
    requires idx <= |body| && Plain(lead) && env != []
    requires body[idx..] == lead + (Concat(EnvLines(env)) + tail)
    ensures var p := PairAt(PLIST, body, idx);
      p.Some? && p.value.key == Escaped(env[0].0, SPECIAL) && p.value.val == Escaped(env[0].1, SPECIAL) &&
      body[p.value.next..] == "\n" + (Concat(EnvLines(env[1..])) + tail)
  {
    FirstPairText(lead, env, tail);
    PlainSkips(lead + IN2, "<key>");
    EscapedSkips(env[0].0, "</key>");
    PlainSkips("\n" + IN2, "<string>");
    EscapedSkips(env[0].1, "</string>");
    PairAtHere(PLIST, body, idx, lead + IN2, Escaped(env[0].0, SPECIAL), "\n" + IN2, Escaped(env[0].1, SPECIAL),
      "\n" + (Concat(EnvLines(env[1..])) + tail));
  }

  lemma NoPairInPlainText(m: Markup, body: string, idx: nat)
    requires idx <= |body| && HasTags(m) && m.keyOpen[0] == '<' && Plain(body[idx..])
    ensures ScanPairs(m, body, idx) == []
  {
    PlainSkips(body[idx..], m.keyOpen);
    FindSkips(body[idx..], "", m.keyOpen);
    assert body[idx..] + "" == body[idx..];
  }

  lemma ScanUnfold(m: Markup, body: string, idx: nat, key: string, val: string, p: Pair)
    requires idx <= |body| && HasTags(m) && PairAt(m, body, idx) == Some(p)
    requires UnescapeInOrder(p.key, m.order) == key && UnescapeInOrder(p.val, m.order) == val
    ensures p.next <= |body| && ScanPairs(m, body, idx) == [(key, val)] + ScanPairs(m, body, p.next)
  {
  }

  lemma ScanFirstPair(body: string, idx: nat, lead: string, env: Env, tail: string) returns (next: nat)
    requires idx <= |body| && Plain(lead) && env != []
    requires body[idx..] == lead + (Concat(EnvLines(env)) + tail)
    ensures next <= |body| && ScanPairs(PLIST, body, idx) == [env[0]] + ScanPairs(PLIST, body, next)
    ensures body[next..] == "\n" + (Concat(EnvLines(env[1..])) + tail)
  {
    FirstPair(body, idx, lead, env, tail);
    var p := PairAt(PLIST, body, idx).value;
    UnescapeInvertsEscape(env[0].0);
    UnescapeInvertsEscape(env[0].1);
    ScanUnfold(PLIST, body, idx, env[0].0, env[0].1, p);
    next := p.next;
  }

  /** The scanner reads the printed pairs back, in order. */
  lemma {:induction false} ScanReadsEnv(body: string, idx: nat, lead: string, env: Env, tail: string)
    requires idx <= |body| && Plain(lead) && Plain(tail)
    requires body[idx..] == lead + (Concat(EnvLines(env)) + tail)
    ensures ScanPairs(PLIST, body, idx) == env
    decreases |env|
  {
    if env == [] {
      NoPairInPlainText(PLIST, body, idx);
    } else {
      var next := ScanFirstPair(body, idx, lead, env, tail);
      ScanReadsEnv(body, next, "\n", env[1..], tail);
    }
  }

  lemma EnvLinesSkipDictEnd(env: Env)
    ensures Skips(Concat(EnvLines(env)), "</dict>")
  {
    forall l <- EnvLines(env) ensures Skips(l, "</dict>") {
      EnvLineSkipsDictEnd(env, l);
    }
    ConcatSkips(EnvLines(env), "</dict>");
  }

  lemma {:induction false} EnvLineSkipsDictEnd(env: Env, l: string)
    requires l in EnvLines(env)
    ensures Skips(l, "</dict>")
  {
    EscapedIsPlain(env[0].0);
    EscapedIsPlain(env[0].1);
    if l == KeyLine(IN2, Escaped(env[0].0, SPECIAL)) {
      KeyLineSkips(IN2, Escaped(env[0].0, SPECIAL), "</dict>");
    } else if l == StringLine(IN2, Escaped(env[0].1, SPECIAL)) {
      StringLineSkips(IN2, Escaped(env[0].1, SPECIAL), "</dict>");
    } else {
      EnvLineSkipsDictEnd(env[1..], l);
    }
  }

  lemma BlockConcat(env: Env)
    requires env != []
    ensures Concat(EnvBlock(EnvLines(env))) ==
      KeyLine(IN1, "EnvironmentVariables") + TagLine(IN1, "<dict>") + Concat(EnvLines(env)) + TagLine(IN1, "</dict>")
  {
    var head, inner, last := [KeyLine(IN1, "EnvironmentVariables"), TagLine(IN1, "<dict>")], EnvLines(env), [TagLine(IN1, "</dict>")];
    ConcatAppend(head + inner, last);
    ConcatAppend(head, inner);
    assert head[1..] == [head[1]] && head[1..][1..] == [];
    assert Concat(head) == head[0] + head[1];
    assert last[1..] == [];
  }

  /** Whatever the label, the paths and the variables, reading the environment back gives exactly the
      variables that were printed, in order. */
  lemma EnvironmentRoundTrip(jobLabel: string, daemon: string, dataDir: string, env: Env)
    ensures EnvironmentOf(Rendered(jobLabel, daemon, dataDir, env)) == env
  {
    var pre := Concat(Preamble(Escaped(jobLabel, SPECIAL))) + Concat(ProgramBlock(Escaped(daemon, SPECIAL)));
    var post := Concat(LaunchBlock()) + Concat(LogBlock(
      Escaped(JoinPath(dataDir, "daemon.out.log"), SPECIAL), Escaped(JoinPath(dataDir, "daemon.err.log"), SPECIAL)));
    TextBeforeEnvSkips(jobLabel, daemon);
    TextAfterEnvSkips(dataDir);
    ReadEnvironment(pre, env, post);
  }

  lemma ReadEnvironment(pre: string, env: Env, post: string)
    requires Skips(pre, ENV_KEY) && Skips(post, ENV_KEY)
    ensures EnvironmentOf(pre + Concat(EnvBlock(EnvLines(env))) + post) == env
  {
    if env == [] {
      SkipsConcat(pre, post, ENV_KEY);
      assert pre + Concat(EnvBlock([])) + post == pre + post;
      NoSection(pre + post, ENV_KEY, "<dict>", "</dict>");
    } else {
      EnvSection(pre, env, post);
      ScanReadsBody(env);
    }
  }

  lemma ScanReadsBody(env: Env)
    ensures ScanPairs(PLIST, "\n" + (Concat(EnvLines(env)) + IN1), 0) == env
  {
    var body := "\n" + (Concat(EnvLines(env)) + IN1);
    assert body[0..] == body;
    ScanReadsEnv(body, 0, "\n", env, IN1);
  }

  lemma TextAfterEnvSkips(dataDir: string)
    ensures Skips(Concat(LaunchBlock()) + Concat(LogBlock(
      Escaped(JoinPath(dataDir, "daemon.out.log"), SPECIAL), Escaped(JoinPath(dataDir, "daemon.err.log"), SPECIAL))), ENV_KEY)
  {
    var outText := Escaped(JoinPath(dataDir, "daemon.out.log"), SPECIAL);
    var errText := Escaped(JoinPath(dataDir, "daemon.err.log"), SPECIAL);
    EscapedIsPlain(JoinPath(dataDir, "daemon.out.log"));
    EscapedIsPlain(JoinPath(dataDir, "daemon.err.log"));
    LaunchBlockSkips("EnvironmentVariables");
    LogBlockSkips(outText, errText, "EnvironmentVariables");
    SkipsConcat(Concat(LaunchBlock()), Concat(LogBlock(outText, errText)), ENV_KEY);
  }

  lemma TextBeforeEnvSkips(jobLabel: string, daemon: string)
    ensures Skips(Concat(Preamble(Escaped(jobLabel, SPECIAL))) + Concat(ProgramBlock(Escaped(daemon, SPECIAL))), ENV_KEY)
  {
    EscapedIsPlain(jobLabel);
    EscapedIsPlain(daemon);
    PreambleSkips(Escaped(jobLabel, SPECIAL), "EnvironmentVariables");
    ProgramBlockSkips(Escaped(daemon, SPECIAL), "EnvironmentVariables");
    SkipsConcat(Concat(Preamble(Escaped(jobLabel, SPECIAL))), Concat(ProgramBlock(Escaped(daemon, SPECIAL))), ENV_KEY);
  }

  lemma EnvSection(pre: string, env: Env, post: string)
    requires env != [] && Skips(pre, ENV_KEY)
    ensures Section(pre + Concat(EnvBlock(EnvLines(env))) + post, ENV_KEY, "<dict>", "</dict>") ==
      Some("\n" + (Concat(EnvLines(env)) + IN1))
  {
    var body := "\n" + (Concat(EnvLines(env)) + IN1);
    BlockConcat(env);
    EnvBlockLayOut(pre, Concat(EnvLines(env)), post);
    PlainSkips(IN1, ENV_KEY);
    SkipsConcat(pre, IN1, ENV_KEY);
    KeyThenIndentSkips();
    EnvLinesSkipDictEnd(env);
    OpenThenBodySkips("<dict>", Concat(EnvLines(env)), "</dict>");
    SectionHere(pre + IN1, ENV_KEY, "\n" + IN1, "<dict>", body, "</dict>", "\n" + post);
  }

  lemma OpenThenBodySkips(open: string, inner: string, pat: string)
    requires |open| > 1 && Plain(open[1..]) && |pat| > 1 && pat[0] == '<' && pat[1] != open[1] && Skips(inner, pat)
    ensures Skips(open + ("\n" + (inner + IN1)), pat)
  {
    PlainSkips(IN1, pat);
    SkipsConcat(inner, IN1, pat);
    TagSkips("", open, "\n", pat, 1);
    SkipsConcat("" + open + "\n", inner + IN1, pat);
    assert "" + open + "\n" + (inner + IN1) == open + ("\n" + (inner + IN1));
  }

  lemma KeyThenIndentSkips()
    ensures Skips(ENV_KEY + ("\n" + IN1), "<dict>") && Skips(ENV_KEY + ("\n" + IN1), "</dict>")
  {
    KeyThenPlainSkips("EnvironmentVariables", "\n" + IN1, "<dict>");
    KeyThenPlainSkips("EnvironmentVariables", "\n" + IN1, "</dict>");
  }

  lemma KeyThenPlainSkips(key: string, text: string, pat: string)
    requires Plain(key) && Plain(text) && |pat| > 5 && pat[0] == '<' && pat[1] != 'k' && pat[2] != 'k'
    ensures Skips(KeyText(key) + text, pat)
  {
    KeyTextSkips(key, pat);
    PlainSkips(text, pat);
    SkipsConcat(KeyText(key), text, pat);
  }

  lemma EnvBlockLayOut(pre: string, inner: string, post: string)
    ensures pre + (KeyLine(IN1, "EnvironmentVariables") + TagLine(IN1, "<dict>") + inner + TagLine(IN1, "</dict>")) + post ==
      (pre + IN1) + (ENV_KEY + ("\n" + IN1) + "<dict>" + ("\n" + (inner + IN1) + "</dict>" + ("\n" + post)))
  {
    LayOutSection(pre, IN1, ENV_KEY, "\n", "<dict>", inner, "</dict>", post);
  }

  lemma LayOutSection(pre: string, i: string, key: string, nl: string, d1: string, inner: string, d2: string, post: string)
    ensures pre + ((i + key + nl) + (i + d1 + nl) + inner + (i + d2 + nl)) + post ==
      (pre + i) + (key + (nl + i) + d1 + (nl + (inner + i) + d2 + (nl + post)))
  {
  }

  lemma ProgramConcat(daemonText: string)
    ensures Concat(ProgramBlock(daemonText)) ==
      KeyLine(IN1, "ProgramArguments") + TagLine(IN1, "<array>") + StringLine(IN2, daemonText) + TagLine(IN1, "</array>")
  {
    ConcatFour(KeyLine(IN1, "ProgramArguments"), TagLine(IN1, "<array>"), StringLine(IN2, daemonText), TagLine(IN1, "</array>"));
  }

  lemma ConcatFour(a: string, b: string, c: string, d: string)
    ensures Concat([a, b, c, d]) == a + b + c + d
  {
    assert [a, b, c, d][1..] == [b, c, d] && [b, c, d][1..] == [c, d] && [c, d][1..] == [d];
    assert Concat([d]) == d && Concat([c, d]) == c + d && Concat([b, c, d]) == b + (c + d);
  }

  lemma ProgramSection(pre: string, daemonText: string, post: string)
    requires Skips(pre, PROGRAM_KEY) && Plain(daemonText)
    ensures Section(pre + Concat(ProgramBlock(daemonText)) + post, PROGRAM_KEY, "<array>", "</array>") ==
      Some("\n" + (StringLine(IN2, daemonText) + IN1))
  {
    var inner := StringLine(IN2, daemonText);
    ProgramConcat(daemonText);
    LayOutSection(pre, IN1, PROGRAM_KEY, "\n", "<array>", inner, "</array>", post);
    PlainSkips(IN1, PROGRAM_KEY);
    SkipsConcat(pre, IN1, PROGRAM_KEY);
    KeyThenPlainSkips("ProgramArguments", "\n" + IN1, "<array>");
    KeyThenPlainSkips("ProgramArguments", "\n" + IN1, "</array>");
    StringLineSkips(IN2, daemonText, "</array>");
    OpenThenBodySkips("<array>", inner, "</array>");
    SectionHere(pre + IN1, PROGRAM_KEY, "\n" + IN1, "<array>", "\n" + (inner + IN1), "</array>", "\n" + post);
  }

  lemma ReadProgram(daemon: string)
    ensures var body := "\n" + (StringLine(IN2, Escaped(daemon, SPECIAL)) + IN1);
      var p := Between(body, 0, "<string>", "</string>");
      p.Some? && XmlUnescape(body[p.value.from..p.value.to]) == daemon
  {
    var text := Escaped(daemon, SPECIAL);
    var body := "\n" + (StringLine(IN2, text) + IN1);
    LayOutString("\n", IN2, "<string>", text, "</string>", IN1);
    assert body[0..] == body;
    PlainSkips("\n" + IN2, "<string>");
    EscapedSkips(daemon, "</string>");
    BetweenHere(body, 0, "\n" + IN2, "<string>", text, "</string>", "\n" + IN1, text + "</string>" + ("\n" + IN1));
    UnescapeInvertsEscape(daemon);
  }

  lemma LayOutString(nl: string, i: string, s1: string, v: string, s2: string, j: string)
    ensures nl + ((i + s1 + v + s2 + nl) + j) == (nl + i) + s1 + (v + s2 + (nl + j))
  {
  }

  /** Whatever the label, the paths and the variables, reading the program back gives the daemon's path. */
  lemma ProgramRoundTrip(jobLabel: string, daemon: string, dataDir: string, env: Env)
    ensures ParsePlistProgram(Rendered(jobLabel, daemon, dataDir, env)) == Some(daemon)
  {
    var pre := Concat(Preamble(Escaped(jobLabel, SPECIAL)));
    var post := Concat(LaunchBlock()) + Concat(LogBlock(
      Escaped(JoinPath(dataDir, "daemon.out.log"), SPECIAL), Escaped(JoinPath(dataDir, "daemon.err.log"), SPECIAL)));
    EscapedIsPlain(jobLabel);
    EscapedIsPlain(daemon);
    PreambleSkips(Escaped(jobLabel, SPECIAL), "ProgramArguments");
    ProgramSection(pre, Escaped(daemon, SPECIAL), Concat(EnvBlock(EnvLines(env))) + post);
    RegroupRendered(pre, Concat(ProgramBlock(Escaped(daemon, SPECIAL))), Concat(EnvBlock(EnvLines(env))), post);
    ReadProgram(daemon);
  }

  lemma RegroupRendered(a: string, b: string, c: string, d: string)
    ensures a + b + c + d == a + b + (c + d)
  {
  }

  // ---- The other values, read back by their keys ----

  /** The text between the first `open` that follows a key and the next `close`. */
  function AfterKey(xml: string, key: string, open: string, close: string): Option<string> {
    match Find(xml, KeyText(key))
    case None => None
    case Some(at) =>
      match Between(xml, at + |KeyText(key)|, open, close)
      case None => None
      case Some(p) => Some(xml[p.from..p.to])
  }

  /** The string after a key, unescaped. */
  function StringAfterKey(xml: string, key: string): Option<string> {
    match AfterKey(xml, key, "<string>", "</string>")
    case None => None
    case Some(text) => Some(XmlUnescape(text))
  }

  /** The first tag after a key. */
  function TagAfterKey(xml: string, key: string): Option<string> {
    AfterKey(xml, key, "<", ">")
  }

  lemma AfterKeyHere(pre: string, key: string, lead: string, open: string, text: string, close: string, rest: string)
    requires Skips(pre, KeyText(key)) && Skips(lead, open) && Skips(text, close) && open != "" && close != ""
    ensures AfterKey(pre + (KeyText(key) + (lead + open + (text + close + rest))), key, open, close) == Some(text)
  {
    var after := lead + open + (text + close + rest);
    KeyIsFound(pre + (KeyText(key) + after), pre, key, after);
    var p := SpanHere(pre + (KeyText(key) + after), |pre| + |KeyText(key)|, lead, open, text, close, rest);
    AfterKeyOfSpan(pre + (KeyText(key) + after), key, open, close, |pre|, p);
  }

  lemma KeyIsFound(xml: string, pre: string, key: string, after: string)
    requires Skips(pre, KeyText(key)) && xml == pre + (KeyText(key) + after)
    ensures Find(xml, KeyText(key)) == Some(|pre|) && |pre| + |KeyText(key)| <= |xml| && xml[|pre| + |KeyText(key)|..] == after
  {
    RegroupFound(pre, KeyText(key), after);
    FindHere(xml, pre, KeyText(key), after);
  }

  lemma AfterKeyOfSpan(xml: string, key: string, open: string, close: string, at: nat, p: Span)
    requires Find(xml, KeyText(key)) == Some(at) && Between(xml, at + |KeyText(key)|, open, close) == Some(p)
    ensures AfterKey(xml, key, open, close) == Some(xml[p.from..p.to])
  {
  }

  lemma RegroupFound(a: string, b: string, c: string)
    ensures a + (b + c) == a + b + c
  {
  }

  lemma StringAfterKeyHere(pre: string, key: string, indent: string, value: string, post: string)
    requires Skips(pre, KeyText(key)) && Plain(indent)
    ensures StringAfterKey(pre + (KeyText(key) + ("\n" + (StringLine(indent, Escaped(value, SPECIAL)) + post))), key) == Some(value)
  {
    var text := Escaped(value, SPECIAL);
    LayOutString("\n", indent, "<string>", text, "</string>", post);
    PlainSkips("\n" + indent, "<string>");
    EscapedSkips(value, "</string>");
    AfterKeyHere(pre, key, "\n" + indent, "<string>", text, "</string>", "\n" + post);
    UnescapeInvertsEscape(value);
  }

  lemma TagAfterKeyHere(pre: string, key: string, indent: string, name: string, post: string)
    requires Skips(pre, KeyText(key)) && Plain(indent) && '>' !in name
    ensures TagAfterKey(pre + (KeyText(key) + ("\n" + (TagLine(indent, "<" + name + ">") + post))), key) == Some(name)
  {
    RegroupTag("\n", indent, "<", name, ">", post);
    PlainSkips("\n" + indent, "<");
    NoCloseSkips(name);
    AfterKeyHere(pre, key, "\n" + indent, "<", name, ">", "\n" + post);
  }

  lemma RegroupTag(nl: string, i: string, open: string, name: string, close: string, post: string)
    ensures nl + (TagLine(i, open + name + close) + post) == (nl + i) + open + (name + close + ("\n" + post))
  {
  }

  lemma NoCloseSkips(name: string)
    requires '>' !in name
    ensures Skips(name, ">")
  {
    forall i: nat | i < |name| ensures DiffersAt(name, i, ">") {
      assert name[i + 0] != ">"[0];
    }
  }

  /** Text that escaping leaves alone. */
  predicate IsOrdinary(s: string) {
    forall c <- s :: c !in SPECIAL
  }

  /** Text without special characters is one of a variable's escaped names only if it is the name. */
  lemma EscapedIsOther(k: string, b: string)
    requires k != b && IsOrdinary(b)
    ensures Escaped(k, SPECIAL) != b
  {
    NothingSpecial(b);
    UnescapeInvertsEscape(k);
    UnescapeInvertsEscape(b);
  }

  lemma {:induction false} EnvLineSkipsKey(env: Env, b: string, l: string)
    requires IsOrdinary(b) && !Names(env, b) && l in EnvLines(env)
    ensures Skips(l, KeyText(b))
  {
    var k, v := Escaped(env[0].0, SPECIAL), Escaped(env[0].1, SPECIAL);
    EscapedIsPlain(env[0].0);
    EscapedIsPlain(env[0].1);
    OrdinaryIsPlain(b);
    if l == KeyLine(IN2, k) {
      EscapedIsOther(env[0].0, b);
      OtherKeySkips(IN2, k, b);
    } else if l == StringLine(IN2, v) {
      OtherStringSkips(IN2, v, b);
    } else {
      NotNamedLater(env, b);
      EnvLineSkipsKey(env[1..], b, l);
    }
  }

  lemma NotNamedLater(env: Env, b: string)
    requires env != [] && !Names(env, b)
    ensures env[0].0 != b && !Names(env[1..], b)
  {
    forall i | 0 <= i < |env[1..]| ensures env[1..][i].0 != b {
      assert env[1..][i] == env[i + 1];
    }
  }

  lemma OrdinaryIsPlain(b: string)
    requires IsOrdinary(b)
    ensures Plain(b)
  {
  }

  lemma EnvBlockSkipsKey(env: Env, b: string)
    requires IsOrdinary(b) && b != "EnvironmentVariables" && !Names(env, b)
    ensures Skips(Concat(EnvBlock(EnvLines(env))), KeyText(b))
  {
    var lines := EnvBlock(EnvLines(env));
    OrdinaryIsPlain(b);
    OtherKeySkips(IN1, "EnvironmentVariables", b);
    OtherTagSkips(IN1, "<dict>", b);
    OtherTagSkips(IN1, "</dict>", b);
    forall l <- lines ensures Skips(l, KeyText(b)) {
      if l in EnvLines(env) { EnvLineSkipsKey(env, b, l); }
    }
    ConcatSkips(lines, KeyText(b));
  }

  /** The text before the launch settings, and no key in it that is `b`. */
  lemma FrontSkips(jobLabel: string, daemon: string, env: Env, b: string)
    requires IsLaterKey(b) && !Names(env, b)
    ensures Skips(Front(jobLabel, daemon, env), KeyText(b))
  {
    EscapedIsPlain(jobLabel);
    EscapedIsPlain(daemon);
    OrdinaryIsPlain(b);
    var p, q := Concat(Preamble(Escaped(jobLabel, SPECIAL))), Concat(ProgramBlock(Escaped(daemon, SPECIAL)));
    PreambleSkips(Escaped(jobLabel, SPECIAL), b);
    ProgramBlockSkips(Escaped(daemon, SPECIAL), b);
    EnvBlockSkipsKey(env, b);
    SkipsConcat(p, q, KeyText(b));
    SkipsConcat(p + q, Concat(EnvBlock(EnvLines(env))), KeyText(b));
  }

  /** Some variable has this name. */
  predicate Names(env: Env, b: string) {
    exists i :: 0 <= i < |env| && env[i].0 == b
  }

  /** A name of ordinary characters that is no key of the document's first half. */
  predicate IsLaterKey(b: string) {
    IsOrdinary(b) && b != "Label" && b != "ProgramArguments" && b != "EnvironmentVariables"
  }

  function Front(jobLabel: string, daemon: string, env: Env): string {
    Concat(Preamble(Escaped(jobLabel, SPECIAL))) + Concat(ProgramBlock(Escaped(daemon, SPECIAL))) + Concat(EnvBlock(EnvLines(env)))
  }

  lemma KeyedLine(pre: string, indent: string, key: string, line: string, post: string)
    ensures pre + (KeyLine(indent, key) + (line + post)) == (pre + indent) + (KeyText(key) + ("\n" + (line + post)))
  {
    RegroupKeyed(pre, indent, KeyText(key), "\n", line + post);
  }

  lemma RegroupKeyed(pre: string, i: string, k: string, nl: string, rest: string)
    ensures pre + ((i + k + nl) + rest) == (pre + i) + (k + (nl + rest))
  {
  }

  lemma IndentedSkips(pre: string, indent: string, b: string)
    requires Skips(pre, KeyText(b)) && Plain(indent)
    ensures Skips(pre + indent, KeyText(b))
  {
    PlainSkips(indent, KeyText(b));
    SkipsConcat(pre, indent, KeyText(b));
  }

  /** A key line and the string line after it, wherever the key has not stood before. */
  lemma ReadKeyedString(pre: string, key: string, value: string, post: string)
    requires Skips(pre, KeyText(key))
    ensures StringAfterKey(pre + (KeyLine(IN1, key) + (StringLine(IN1, Escaped(value, SPECIAL)) + post)), key) == Some(value)
  {
    KeyedLine(pre, IN1, key, StringLine(IN1, Escaped(value, SPECIAL)), post);
    IndentedSkips(pre, IN1, key);
    StringAfterKeyHere(pre + IN1, key, IN1, value, post);
  }

  lemma ReadKeyedTag(pre: string, indent: string, key: string, name: string, post: string)
    requires Skips(pre, KeyText(key)) && Plain(indent) && '>' !in name
    ensures TagAfterKey(pre + (KeyLine(indent, key) + (TagLine(indent, "<" + name + ">") + post)), key) == Some(name)
  {
    KeyedLine(pre, indent, key, TagLine(indent, "<" + name + ">"), post);
    IndentedSkips(pre, indent, key);
    TagAfterKeyHere(pre + indent, key, indent, name, post);
  }

  lemma ConcatSplit(lines: seq<string>, n: nat)
    requires n + 1 < |lines|
    ensures Concat(lines) == Concat(lines[..n]) + (lines[n] + (lines[n + 1] + Concat(lines[n + 2..])))
  {
    assert lines == lines[..n] + lines[n..];
    ConcatAppend(lines[..n], lines[n..]);
    ConcatFirst(lines, n);
    ConcatFirst(lines, n + 1);
  }

  lemma ConcatFirst(lines: seq<string>, n: nat)
    requires n < |lines|
    ensures Concat(lines[n..]) == lines[n] + Concat(lines[n + 1..])
  {
    assert lines[n..][1..] == lines[n + 1..];
  }

  /** The job's label reads back, whatever it is. */
  lemma LabelReadsBack(jobLabel: string, daemon: string, dataDir: string, env: Env)
    ensures StringAfterKey(Rendered(jobLabel, daemon, dataDir, env), "Label") == Some(jobLabel)
  {
    var lines := Preamble(Escaped(jobLabel, SPECIAL));
    var header := Concat(lines[..4]);
    assert lines[..4] == Preamble("")[..4];
    HeaderSkips("Label");
    ConcatSplit(lines, 4);
    var q := Concat(ProgramBlock(Escaped(daemon, SPECIAL)));
    var e, tail := Concat(EnvBlock(EnvLines(env))), Concat(LaunchBlock()) + Concat(LogBlock(
      Escaped(JoinPath(dataDir, "daemon.out.log"), SPECIAL), Escaped(JoinPath(dataDir, "daemon.err.log"), SPECIAL)));
    assert lines[6..] == [];
    RegroupLabel(header, lines[4], lines[5], q, e, tail);
    ReadKeyedString(header, "Label", jobLabel, q + e + tail);
  }

  lemma RegroupLabel(h: string, k: string, v: string, q: string, e: string, tail: string)
    ensures h + (k + (v + "")) + q + e + tail == h + (k + (v + (q + e + tail)))
  {
  }

  /** So do the two log files, under the data directory, unless a variable has their key's name. */
  lemma LogPathsReadBack(jobLabel: string, daemon: string, dataDir: string, env: Env)
    requires !Names(env, "StandardOutPath") && !Names(env, "StandardErrorPath")
    ensures var xml := Rendered(jobLabel, daemon, dataDir, env);
      && StringAfterKey(xml, "StandardOutPath") == Some(JoinPath(dataDir, "daemon.out.log"))
      && StringAfterKey(xml, "StandardErrorPath") == Some(JoinPath(dataDir, "daemon.err.log"))
  {
    var front, launch := Front(jobLabel, daemon, env), Concat(LaunchBlock());
    LaterKeys();
    BeforeLogsSkips(jobLabel, daemon, env, "StandardOutPath");
    OutPathReadsBack(front + launch, JoinPath(dataDir, "daemon.out.log"), Escaped(JoinPath(dataDir, "daemon.err.log"), SPECIAL));
    BeforeLogsSkips(jobLabel, daemon, env, "StandardErrorPath");
    EscapedIsPlain(JoinPath(dataDir, "daemon.out.log"));
    ErrorPathReadsBack(front + launch, Escaped(JoinPath(dataDir, "daemon.out.log"), SPECIAL), JoinPath(dataDir, "daemon.err.log"));
    RegroupLogs(front, launch, Concat(LogBlock(Escaped(JoinPath(dataDir, "daemon.out.log"), SPECIAL), Escaped(JoinPath(dataDir, "daemon.err.log"), SPECIAL))));
  }

  lemma BeforeLogsSkips(jobLabel: string, daemon: string, env: Env, b: string)
    requires IsLaterKey(b) && !Names(env, b) && b != "RunAtLoad" && b != "KeepAlive" && b != "SuccessfulExit"
    ensures Skips(Front(jobLabel, daemon, env) + Concat(LaunchBlock()), KeyText(b))
  {
    FrontSkips(jobLabel, daemon, env, b);
    OrdinaryIsPlain(b);
    LaunchBlockSkips(b);
    SkipsConcat(Front(jobLabel, daemon, env), Concat(LaunchBlock()), KeyText(b));
  }

  lemma OutPathReadsBack(pre: string, out: string, errText: string)
    requires Skips(pre, KeyText("StandardOutPath"))
    ensures StringAfterKey(pre + Concat(LogBlock(Escaped(out, SPECIAL), errText)), "StandardOutPath") == Some(out)
  {
    var lines := LogBlock(Escaped(out, SPECIAL), errText);
    ConcatSplit(lines, 0);
    assert Concat(lines[..0]) == "";
    RegroupLine(pre, "", lines[0], lines[1], Concat(lines[2..]));
    ReadKeyedString(pre, "StandardOutPath", out, Concat(lines[2..]));
  }

  lemma ErrorPathReadsBack(pre: string, outText: string, err: string)
    requires Skips(pre, KeyText("StandardErrorPath")) && Plain(outText)
    ensures StringAfterKey(pre + Concat(LogBlock(outText, Escaped(err, SPECIAL))), "StandardErrorPath") == Some(err)
  {
    var b, lines := "StandardErrorPath", LogBlock(outText, Escaped(err, SPECIAL));
    OtherKeySkips(IN1, "StandardOutPath", b);
    OtherStringSkips(IN1, outText, b);
    ConcatSkips(lines[..2], KeyText(b));
    SkipsConcat(pre, Concat(lines[..2]), KeyText(b));
    ConcatSplit(lines, 2);
    RegroupLine(pre, Concat(lines[..2]), lines[2], lines[3], Concat(lines[4..]));
    ReadKeyedString(pre + Concat(lines[..2]), b, err, Concat(lines[4..]));
  }

  lemma RegroupLogs(front: string, launch: string, logs: string)
    ensures front + (launch + logs) == front + launch + logs
  {
  }

  lemma RegroupLine(pre: string, some: string, k: string, v: string, more: string)
    ensures pre + (some + (k + (v + more))) == (pre + some) + (k + (v + more))
    ensures pre + "" == pre
  {
  }

  lemma LaterKeys()
    ensures IsLaterKey("StandardOutPath") && IsLaterKey("StandardErrorPath")
  {
    assert IsOrdinary("StandardOutPath");
    assert IsOrdinary("StandardErrorPath");
  }

  /** The agent starts at load, and is kept alive but after a successful exit: those settings read back, too,
      unless a variable has their key's name. */
  lemma LaunchSettingsReadBack(jobLabel: string, daemon: string, dataDir: string, env: Env)
    ensures var xml := Rendered(jobLabel, daemon, dataDir, env);
      && (!Names(env, "RunAtLoad") ==> TagAfterKey(xml, "RunAtLoad") == Some("true/"))
      && (!Names(env, "KeepAlive") ==> TagAfterKey(xml, "KeepAlive") == Some("dict"))
      && (!Names(env, "SuccessfulExit") ==> TagAfterKey(xml, "SuccessfulExit") == Some("false/"))
  {
    var front := Front(jobLabel, daemon, env);
    var logs := Concat(LogBlock(Escaped(JoinPath(dataDir, "daemon.out.log"), SPECIAL), Escaped(JoinPath(dataDir, "daemon.err.log"), SPECIAL)));
    LaunchKeys();
    if !Names(env, "RunAtLoad") {
      FrontSkips(jobLabel, daemon, env, "RunAtLoad");
      RunAtLoadReadsBack(front, logs);
    }
    if !Names(env, "KeepAlive") {
      FrontSkips(jobLabel, daemon, env, "KeepAlive");
      KeepAliveReadsBack(front, logs);
    }
    if !Names(env, "SuccessfulExit") {
      FrontSkips(jobLabel, daemon, env, "SuccessfulExit");
      SuccessfulExitReadsBack(front, logs);
    }
  }

  lemma LaunchKeys()
    ensures IsLaterKey("RunAtLoad") && IsLaterKey("KeepAlive") && IsLaterKey("SuccessfulExit")
  {
    OrdinaryNames();
  }

  lemma OrdinaryNames()
    ensures IsOrdinary("RunAtLoad") && IsOrdinary("KeepAlive") && IsOrdinary("SuccessfulExit")
  {
    LettersAreOrdinary("RunAtLoad");
    LettersAreOrdinary("KeepAlive");
    LettersAreOrdinary("SuccessfulExit");
  }

  lemma LettersAreOrdinary(s: string)
    requires AreLetters(s)
    ensures IsOrdinary(s)
  {
    forall i | 0 <= i < |s| ensures s[i] !in SPECIAL {
      assert 'A' <= s[i];
    }
  }

  predicate AreLetters(s: string) {
    forall i :: 0 <= i < |s| ==> 'A' <= s[i] <= 'z'
  }

  lemma RunAtLoadReadsBack(front: string, logs: string)
    requires Skips(front, KeyText("RunAtLoad"))
    ensures TagAfterKey(front + (Concat(LaunchBlock()) + logs), "RunAtLoad") == Some("true/")
  {
    var lines := LaunchBlock();
    assert Concat(lines[..0]) == "";
    SettingAt(front, lines, 0, IN1, "RunAtLoad", "true/", logs);
  }

  lemma KeepAliveReadsBack(front: string, logs: string)
    requires Skips(front, KeyText("KeepAlive"))
    ensures TagAfterKey(front + (Concat(LaunchBlock()) + logs), "KeepAlive") == Some("dict")
  {
    var lines := LaunchBlock();
    OtherKeySkips(IN1, "RunAtLoad", "KeepAlive");
    OtherTagSkips(IN1, "<true/>", "KeepAlive");
    ConcatSkips(lines[..2], KeyText("KeepAlive"));
    SettingAt(front, lines, 2, IN1, "KeepAlive", "dict", logs);
  }

  lemma SuccessfulExitReadsBack(front: string, logs: string)
    requires Skips(front, KeyText("SuccessfulExit"))
    ensures TagAfterKey(front + (Concat(LaunchBlock()) + logs), "SuccessfulExit") == Some("false/")
  {
    var lines := LaunchBlock();
    OtherKeySkips(IN1, "RunAtLoad", "SuccessfulExit");
    OtherTagSkips(IN1, "<true/>", "SuccessfulExit");
    OtherKeySkips(IN1, "KeepAlive", "SuccessfulExit");
    OtherTagSkips(IN1, "<dict>", "SuccessfulExit");
    ConcatSkips(lines[..4], KeyText("SuccessfulExit"));
    SettingAt(front, lines, 4, IN2, "SuccessfulExit", "false/", logs);
  }

  lemma SettingAt(front: string, lines: seq<string>, n: nat, indent: string, b: string, name: string, logs: string)
    requires n + 1 < |lines| && Plain(indent) && '>' !in name
    requires Skips(front, KeyText(b)) && Skips(Concat(lines[..n]), KeyText(b))
    requires lines[n] == KeyLine(indent, b) && lines[n + 1] == TagLine(indent, "<" + name + ">")
    ensures TagAfterKey(front + (Concat(lines) + logs), b) == Some(name)
  {
    SkipsConcat(front, Concat(lines[..n]), KeyText(b));
    ConcatSplit(lines, n);
    RegroupSetting(front, Concat(lines[..n]), lines[n], lines[n + 1], Concat(lines[n + 2..]), logs);
    ReadKeyedTag(front + Concat(lines[..n]), indent, b, name, Concat(lines[n + 2..]) + logs);
  }

  lemma RegroupSetting(front: string, some: string, k: string, v: string, more: string, logs: string)
    ensures front + ((some + (k + (v + more))) + logs) == (front + some) + (k + (v + (more + logs)))
  {
  }
}
