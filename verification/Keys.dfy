/** Composed policy keys: `src/apparitor/mapping.py`, `fastmcp.py`, `a2a.py` and `cedar.py`. */
module Keys {
  import opened Wrappers

  /** Python's whitespace characters. */
  predicate IsSpace(c: char) {
    var n := c as int;
    || 0x09 <= n <= 0x0D || 0x1C <= n <= 0x20 || n == 0x85 || n == 0xA0 || n == 0x1680
    || 0x2000 <= n <= 0x200A || n == 0x2028 || n == 0x2029 || n == 0x202F || n == 0x205F || n == 0x3000
  }

  /** Lower case of one character; only the Latin letters A to Z change in this model. */
  function LowerChar(c: char): char {
    if 'A' <= c <= 'Z' then (c as int + 32) as char else c
  }

  function Lower(s: string): (r: string)
    ensures |r| == |s| && forall i :: 0 <= i < |s| ==> r[i] == LowerChar(s[i])
  {
    if s == "" then "" else [LowerChar(s[0])] + Lower(s[1..])
  }

  function LStrip(s: string): string {
    if s != "" && IsSpace(s[0]) then LStrip(s[1..]) else s
  }

  function RStrip(s: string): string {
    if s != "" && IsSpace(s[|s| - 1]) then RStrip(s[..|s| - 1]) else s
  }

  function Strip(s: string): string {
    RStrip(LStrip(s))
  }

  predicate Trimmed(s: string) {
    s != "" ==> !IsSpace(s[0]) && !IsSpace(s[|s| - 1])
  }

  function NormalizeToolName(name: string): string {
    Lower(Strip(name))
  }

  // ----- Stripping and case folding -----

  /** The whitespace characters one by one, the information separators included. */
  lemma IsSpaceExact(c: char)
    ensures IsSpace(c) <==>
      c in {' ', '\t', '\n', '\U{0B}', '\U{0C}', '\r', '\U{1C}', '\U{1D}', '\U{1E}', '\U{1F}', '\U{85}', '\U{A0}', '\U{1680}',
            '\U{2000}', '\U{2001}', '\U{2002}', '\U{2003}', '\U{2004}', '\U{2005}', '\U{2006}', '\U{2007}', '\U{2008}',
            '\U{2009}', '\U{200A}', '\U{2028}', '\U{2029}', '\U{202F}', '\U{205F}', '\U{3000}'}
  {
  }

  lemma {:induction false} LStripShape(s: string)
    ensures LStrip(s) != "" ==> !IsSpace(LStrip(s)[0])
    ensures |LStrip(s)| <= |s| && LStrip(s) == s[|s| - |LStrip(s)|..]
    ensures forall i :: 0 <= i < |s| - |LStrip(s)| ==> IsSpace(s[i])
  {
    if s != "" && IsSpace(s[0]) {
      var tail := s[1..];
      LStripShape(tail);
      assert LStrip(s) == LStrip(tail) == tail[|tail| - |LStrip(tail)|..] == s[|s| - |LStrip(s)|..];
      forall i | 0 <= i < |s| - |LStrip(s)| ensures IsSpace(s[i]) {
        assert i > 0 ==> s[i] == tail[i - 1];
      }
    } else {
      assert LStrip(s) == s;
    }
  }

  lemma {:induction false} RStripShape(s: string)
    ensures RStrip(s) != "" ==> !IsSpace(RStrip(s)[|RStrip(s)| - 1])
    ensures RStrip(s) <= s
    ensures forall i :: |RStrip(s)| <= i < |s| ==> IsSpace(s[i])
  {
    if s != "" && IsSpace(s[|s| - 1]) {
      RStripShape(s[..|s| - 1]);
    }
  }

  /** Stripping leaves a trimmed middle part of the text and drops only whitespace around it. */
  lemma StripShape(s: string)
    ensures Trimmed(Strip(s))
    ensures var i := |s| - |LStrip(s)|;
      var j := i + |Strip(s)|;
      && 0 <= i <= j <= |s| && s[i..j] == Strip(s)
      && (forall k :: 0 <= k < i ==> IsSpace(s[k])) && (forall k :: j <= k < |s| ==> IsSpace(s[k]))
  {
    LStripShape(s);
    RStripShape(LStrip(s));
    var i := |s| - |LStrip(s)|;
    forall k | i + |Strip(s)| <= k < |s| ensures IsSpace(s[k]) {
      assert s[k] == LStrip(s)[k - i];
    }
  }

  lemma StripTrimmed(s: string)
    requires Trimmed(s)
    ensures Strip(s) == s
  {
  }

  lemma LowerKeepsTrimmed(s: string)
    requires Trimmed(s)
    ensures Trimmed(Lower(s)) && Lower(Lower(s)) == Lower(s)
  {
  }

  /** Normalising a tool name twice is normalising it once, and a normalised name needs no stripping. */
  lemma NormalizeIdempotent(name: string)
    ensures NormalizeToolName(NormalizeToolName(name)) == NormalizeToolName(name)
    ensures Strip(NormalizeToolName(name)) == NormalizeToolName(name)
  {
    StripShape(name);
    LowerKeepsTrimmed(Strip(name));
    StripTrimmed(NormalizeToolName(name));
  }

  predicate IsUpper(c: char) {
    'A' <= c <= 'Z'
  }

  /** The same letter in two cases. */
  predicate SameLetter(a: char, b: char) {
    || a == b
    || (IsUpper(a) && b as int == a as int + ('a' as int - 'A' as int))
    || (IsUpper(b) && a as int == b as int + ('a' as int - 'A' as int))
  }

  predicate SameFolded(a: string, b: string) {
    |a| == |b| && forall i :: 0 <= i < |a| ==> SameLetter(a[i], b[i])
  }

  lemma LowerCharExact(a: char, b: char)
    ensures !IsUpper(LowerChar(a))
    ensures LowerChar(a) == LowerChar(b) <==> SameLetter(a, b)
  {
  }

  /** Two names normalise to one key exactly when, stripped, they are the same letters in whatever case. */
  lemma NormalizeExact(a: string, b: string)
    ensures NormalizeToolName(a) == NormalizeToolName(b) <==> SameFolded(Strip(a), Strip(b))
    ensures forall c :: c in NormalizeToolName(a) ==> !IsUpper(c)
  {
    hide Strip, LowerChar, SameLetter, IsUpper;
    var x, y := Strip(a), Strip(b);
    forall i | 0 <= i < |x| ensures !IsUpper(Lower(x)[i]) {
      LowerCharExact(x[i], x[i]);
    }
    if |x| == |y| {
      forall i | 0 <= i < |x| ensures Lower(x)[i] == Lower(y)[i] <==> SameLetter(x[i], y[i]) {
        LowerCharExact(x[i], y[i]);
      }
    }
  }

  // ----- Two segments around a slash -----

  predicate NoSlash(s: string) {
    '/' !in s
  }

  function Compose(a: string, b: string): string {
    a + "/" + b
  }

  function FirstSlash(s: string): nat {
    if s == "" || s[0] == '/' then 0 else 1 + FirstSlash(s[1..])
  }

  lemma {:induction false} FirstSlashAfter(a: string, rest: string)
    requires NoSlash(a)
    ensures FirstSlash(a + "/" + rest) == |a|
  {
    if a != "" {
      FirstSlashAfter(a[1..], rest);
      assert (a + "/" + rest)[1..] == a[1..] + "/" + rest;
    }
  }

  /** A key whose first segment has no slash falls apart in one way only. */
  lemma ComposeInjective(a: string, b: string, c: string, d: string)
    requires NoSlash(a) && NoSlash(c)
    requires Compose(a, b) == Compose(c, d)
    ensures a == c && b == d
  {
    var x, y := Compose(a, b), Compose(c, d);
    FirstSlashAfter(a, b);
    FirstSlashAfter(c, d);
    assert x[..|a|] == a && y[..|c|] == c;
    assert x[|a| + 1..] == b && y[|c| + 1..] == d;
  }

  function McpResourceId(server: string, tool: string): Result<string, Fault> {
    var s, t := Strip(server), Strip(tool);
    if s == "" || t == "" then Err(ConfigError)
    else if '/' in s || '/' in t then Err(ConfigError)
    else Ok(Compose(s, t))
  }

  /** The id an MCP mapper gives a call: the tool segment is normalised first. */
  function McpToolKey(server: string, toolName: string): Result<string, Fault> {
    McpResourceId(server, NormalizeToolName(toolName))
  }

  /** Two calls share an MCP key exactly when their stripped servers and their normalised tools agree. */
  lemma McpToolKeyExact(server: string, tool: string, server': string, tool': string)
    requires McpToolKey(server, tool).Ok? && McpToolKey(server', tool').Ok?
    ensures McpToolKey(server, tool) == McpToolKey(server', tool')
            <==> Strip(server) == Strip(server') && NormalizeToolName(tool) == NormalizeToolName(tool')
  {
    NormalizeIdempotent(tool);
    NormalizeIdempotent(tool');
    if McpToolKey(server, tool) == McpToolKey(server', tool') {
      ComposeInjective(Strip(server), NormalizeToolName(tool), Strip(server'), NormalizeToolName(tool'));
    }
  }

  /** An id exists exactly when both segments survive stripping and neither hides a slash. */
  lemma McpToolKeyDefined(server: string, tool: string)
    ensures McpToolKey(server, tool).Err? ==> McpToolKey(server, tool).error == ConfigError
    ensures McpToolKey(server, tool).Ok?
            <==> Strip(server) != "" && NormalizeToolName(tool) != ""
                 && NoSlash(Strip(server)) && NoSlash(NormalizeToolName(tool))
  {
    NormalizeIdempotent(tool);
  }

  /** A prompt keeps its name verbatim; the server label is stripped. */
  function PromptKey(server: Option<string>, name: string): Option<string> {
    if server.None? || Strip(server.value) == "" || '/' in Strip(server.value) then None
    else if Strip(name) == "" || '/' in name then None
    else Some(Compose(Strip(server.value), name))
  }

  lemma PromptKeyExact(server: Option<string>, name: string, server': Option<string>, name': string)
    requires PromptKey(server, name).Some? && PromptKey(server', name').Some?
    ensures PromptKey(server, name) == PromptKey(server', name')
            <==> Strip(server.value) == Strip(server'.value) && name == name'
  {
    if PromptKey(server, name) == PromptKey(server', name') {
      ComposeInjective(Strip(server.value), name, Strip(server'.value), name');
    }
  }

  /** The agent label is stripped and checked once, at construction. */
  function AgentLabel(raw: string): (r: Result<string, Fault>)
    ensures r.Ok? ==> r.value == Strip(raw) && ValidLabel(r.value)
    ensures r.Err? ==> !ValidLabel(Strip(raw)) && r.error == ConfigError
  {
    var agent := Strip(raw);
    if agent == "" || '/' in agent then Err(ConfigError) else Ok(agent)
  }

  predicate ValidLabel(agent: string) {
    agent != "" && NoSlash(agent)
  }

  /** The policy key of an agent invocation: the agent itself, or one of its skills by verbatim name. */
  datatype AgentKey = AgentKey(typ: string, id: string)

  /** `Some(None)` is a resolver that resolves no skill; `None` is no resolver. */
  function AgentResource(agent: string, resolved: Option<Option<string>>): Option<AgentKey> {
    if resolved.None? || resolved.value.None? then Some(AgentKey("a2a_agent", agent))
    else
      var skill := resolved.value.value;
      if Strip(skill) == "" || '/' in skill then None else Some(AgentKey("a2a_skill", Compose(agent, skill)))
  }

  /** The skill that a resolution stands for, if any. */
  function SkillOf(resolved: Option<Option<string>>): Option<string> {
    if resolved.None? then None else resolved.value
  }

  /** Type and id together determine the agent label and the verbatim skill. */
  lemma AgentResourceExact(agent: string, r: Option<Option<string>>, agent': string, r': Option<Option<string>>)
    requires ValidLabel(agent) && ValidLabel(agent')
    requires AgentResource(agent, r).Some? && AgentResource(agent', r').Some?
    ensures AgentResource(agent, r) == AgentResource(agent', r') <==> agent == agent' && SkillOf(r) == SkillOf(r')
  {
    if AgentResource(agent, r) == AgentResource(agent', r') && SkillOf(r).Some? && SkillOf(r').Some? {
      ComposeInjective(agent, SkillOf(r).value, agent', SkillOf(r').value);
    }
  }

  // ----- Cedar entity ids -----

  /** The characters that cannot stand inside a Cedar string literal. */
  predicate Disallowed(c: char) {
    c == '\"' || c == '\\' || c as int <= 0x1F
  }

  /** `title` is Python's title-casing, which this model leaves open. */
  function MappedType(kind: string, title: string -> string): string {
    if kind == "agent" then "Agent" else if kind == "tool" then "Tool" else title(kind)
  }

  function EntityUid(kind: string, identifier: string, title: string -> string): Result<string, Fault> {
    if exists i :: 0 <= i < |identifier| && Disallowed(identifier[i]) then Err(Unexpected)
    else Ok(MappedType(kind, title) + "::\"" + identifier + "\"")
  }

  /** A uid determines the mapped type and the identifier, whatever the type text contains. */
  lemma EntityUidExact(kind: string, id: string, kind': string, id': string, title: string -> string)
    requires EntityUid(kind, id, title).Ok? && EntityUid(kind', id', title).Ok?
    ensures EntityUid(kind, id, title) == EntityUid(kind', id', title)
            <==> MappedType(kind, title) == MappedType(kind', title) && id == id'
  {
    if EntityUid(kind, id, title) == EntityUid(kind', id', title) {
      UidInjective(MappedType(kind, title), id, MappedType(kind', title), id');
    }
  }

  function LastQuote(s: string): nat {
    if s == "" || s[|s| - 1] == '\"' then |s| else LastQuote(s[..|s| - 1])
  }

  lemma {:induction false} LastQuoteBefore(front: string, id: string)
    requires forall i :: 0 <= i < |id| ==> id[i] != '\"'
    ensures LastQuote(front + "\"" + id) == |front| + 1
  {
    if id != "" {
      var s := front + "\"" + id;
      LastQuoteBefore(front, id[..|id| - 1]);
      assert s[..|s| - 1] == front + "\"" + id[..|id| - 1];
    }
  }

  lemma UidInjective(t: string, id: string, t': string, id': string)
    requires (forall i :: 0 <= i < |id| ==> id[i] != '\"') && (forall i :: 0 <= i < |id'| ==> id'[i] != '\"')
    requires t + "::\"" + id + "\"" == t' + "::\"" + id' + "\""
    ensures t == t' && id == id'
  {
    var x, y := t + "::\"" + id + "\"", t' + "::\"" + id' + "\"";
    assert x[..|x| - 1] == t + "::" + "\"" + id;
    assert y[..|y| - 1] == t' + "::" + "\"" + id';
    LastQuoteBefore(t + "::", id);
    LastQuoteBefore(t' + "::", id');
    assert x[..|t|] == t && y[..|t'|] == t';
    assert x[|t| + 3..|x| - 1] == id && y[|t'| + 3..|y| - 1] == id';
  }
}
