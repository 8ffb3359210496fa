/** internal/openclawtrajectory/result.go: reading one line of a trajectory. The same message is read
    twice, by the tool-result parser and by the metadata parser, with different rules for its name. */
module Trajectory {
  import opened Options
  import opened Text
  import opened Json

  /** A decoded message. `texts` are the structuredContent members of its text items that decode. */
  datatype Message = Message(toolName: string, isError: bool, mcpServer: string, mcpTool: string,
                             structured: Json, texts: seq<Json>)

  datatype RawMessage = NoMessage | BadMessage | Decoded(message: Message)

  /** A non-blank line: not JSON, or an event. */
  datatype Line = NotJson | TrajectoryEvent(kind: string, raw: RawMessage)

  datatype EventMetadata = EventMetadata(kind: string, tool: string, server: string, toolResult: bool)

  datatype ToolResult = ToolResult(tool: string, content: Json)

  datatype ParseError = InvalidJson | MissingStructuredContent

  const TOOL_RESULT := "tool.result"
  const MCP := "mcp__"
  const SEP := "__"
  const DOT := "."

  predicate SafeChar(c: char) {
    'a' <= c <= 'z' || 'A' <= c <= 'Z' || '0' <= c <= '9' || c == '_' || c == '-' || c == '.' || c == '/'
  }

  function SafeToken(value: string): (r: string)
    ensures r != "" ==> r == Trim(value) && |r| <= 80
    ensures forall i :: 0 <= i < |r| ==> SafeChar(r[i])
  {
    var text := Trim(value);
    if text == "" || |text| > 80 || (exists i :: 0 <= i < |text| && !SafeChar(text[i])) then "" else text
  }

  /** strings.Cut: the text before and after the first separator. */
  function Cut(s: string, sep: string): Option<(string, string)> {
    if sep <= s then Some(("", s[|sep|..]))
    else if s == "" then None
    else
      match Cut(s[1..], sep)
      case None => None
      case Some((a, b)) => Some(([s[0]] + a, b))
  }

  function TrimServerPrefix(tool: string, server: string): string {
    if MCP + server + SEP <= tool then tool[|MCP + server + SEP|..]
    else if server + SEP <= tool then tool[|server + SEP|..]
    else if server + DOT <= tool then tool[|server + DOT|..]
    else tool
  }

  predicate HasServerPrefix(tool: string, server: string) {
    MCP + server + SEP <= tool || server + SEP <= tool || server + DOT <= tool
  }

  /** normalizeToolName: the tool, when the message is from the server. */
  function NormalizeToolName(msg: Message, serverName: string): Option<string> {
    var server := Trim(serverName);
    var detailsServer := Trim(msg.mcpServer);
    if detailsServer != "" then
      if detailsServer != server then None
      else Some(TrimServerPrefix(FirstNonEmpty(Trim(msg.mcpTool), Trim(msg.toolName)), server))
    else if HasServerPrefix(Trim(msg.toolName), server) then Some(TrimServerPrefix(Trim(msg.toolName), server))
    else None
  }

  /** metadataServerAndTool. */
  function MetadataServerAndTool(msg: Message, serverName: string): (string, string) {
    var server := SafeToken(msg.mcpServer);
    var toolName := Trim(msg.toolName);
    if server != "" then
      (server, FirstNonEmpty(SafeToken(msg.mcpTool), SafeToken(TrimServerPrefix(toolName, server))))
    else
      var mcp := if MCP <= toolName then Cut(toolName[|MCP|..], SEP) else None;
      if mcp.Some? then (SafeToken(mcp.value.0), SafeToken(mcp.value.1))
      else
        var dot := Cut(toolName, DOT);
        if dot.Some? then (SafeToken(dot.value.0), SafeToken(dot.value.1))
        else
          var sep := Cut(toolName, SEP);
          if sep.Some? then (SafeToken(sep.value.0), SafeToken(sep.value.1))
          else
            var tool := NormalizeToolName(msg, serverName);
            if tool.Some? then (SafeToken(serverName), SafeToken(tool.value)) else ("", SafeToken(toolName))
  }

  function ExtractEventMetadata(line: Line, serverName: string): Result<Option<EventMetadata>, ParseError> {
    if line.NotJson? then Err(InvalidJson)
    else
      var kind := SafeToken(line.kind);
      if kind == "" then Ok(None)
      else if line.kind != TOOL_RESULT then Ok(Some(EventMetadata(kind, "", "", false)))
      else match line.raw
        case NoMessage => Ok(Some(EventMetadata(kind, "", "", true)))
        case BadMessage => Err(InvalidJson)
        case Decoded(msg) =>
          var (server, tool) := MetadataServerAndTool(msg, serverName);
          Ok(Some(EventMetadata(kind, tool, server, true)))
  }

  function FirstObject(values: seq<Json>): (r: Option<Json>)
    ensures r.Some? ==> r.value.Obj? && r.value in values
  {
    if values == [] then None else if values[0].Obj? then Some(values[0]) else FirstObject(values[1..])
  }

  function ExtractToolResult(line: Line, serverName: string): (r: Result<Option<ToolResult>, ParseError>)
    ensures r.Ok? && r.value.Some? ==> r.value.value.content.Obj?
  {
    if line.NotJson? then Err(InvalidJson)
    else if line.kind != TOOL_RESULT || line.raw.NoMessage? then Ok(None)
    else if line.raw.BadMessage? then Err(InvalidJson)
    else
      var msg := line.raw.message;
      if msg.isError then Ok(None)
      else
        var tool := NormalizeToolName(msg, serverName);
        if tool.None? then Ok(None)
        else
          var structured := FirstObject([msg.structured] + msg.texts);
          if structured.None? then Err(MissingStructuredContent)
          else Ok(Some(ToolResult(tool.value, structured.value)))
  }

  // ---------- the two readings of a name ----------

  const CLAWSIDE := "clawside"

  lemma {:induction false} CutAtFirst(p: string, sep: string, x: string)
    requires sep != "" && forall i :: 0 <= i < |p| ==> p[i] != sep[0]
    ensures Cut(p + sep + x, sep) == Some((p, x))
  {
    var s := p + sep + x;
    if p == "" {
      assert s == sep + x && s[|sep|..] == x;
    } else {
      assert s[0] == p[0];
      assert s[1..] == p[1..] + sep + x;
      CutAtFirst(p[1..], sep, x);
      assert p == [p[0]] + p[1..];
    }
  }

  lemma {:induction false} NoCut(s: string, sep: string)
    requires sep != "" && forall i :: 0 <= i < |s| ==> s[i] != sep[0]
    ensures Cut(s, sep) == None
  {
    if s != "" {
      NoCut(s[1..], sep);
    }
  }

  lemma ClawsideIsSafe()
    ensures SafeToken(CLAWSIDE) == CLAWSIDE && Trim(CLAWSIDE) == CLAWSIDE
  {
    var s := CLAWSIDE;
    assert forall i :: 0 <= i < |s| ==> SafeChar(s[i]);
  }

  /** The one way in which a result that the tool-result parser takes is not counted as Clawside's: a name
      that reads clawside__x with a point in x is cut at the point by the metadata parser. */
  predicate Misread(msg: Message) {
    && Trim(msg.mcpServer) == ""
    && !(MCP + CLAWSIDE + SEP <= Trim(msg.toolName))
    && CLAWSIDE + SEP <= Trim(msg.toolName)
    && exists i :: 0 <= i < |Trim(msg.toolName)| && Trim(msg.toolName)[i] == '.'
  }

  lemma {:induction false} CutBefore(s: string, sep: char)
    requires exists i :: 0 <= i < |s| && s[i] == sep
    ensures var cut := Cut(s, [sep]);
      && cut.Some? && |cut.value.0| < |s| && s[|cut.value.0|] == sep
      && (forall j :: 0 <= j < |cut.value.0| ==> s[j] == cut.value.0[j] && s[j] != sep)
  {
    if s[0] != sep {
      var i :| 0 <= i < |s| && s[i] == sep;
      var rest := s[1..];
      assert rest[i - 1] == sep;
      CutBefore(rest, sep);
      var a := Cut(rest, [sep]).value.0;
      assert Cut(s, [sep]).value.0 == [s[0]] + a;
      assert s[|a| + 1] == rest[|a|];
      assert forall j :: 1 <= j < |a| + 1 ==> s[j] == rest[j - 1];
    }
  }

  /** A long enough prefix that ends in no white space survives trimming. */
  lemma TrimKeepsHead(s: string, k: nat)
    requires 0 < k <= |s| && !IsSpace(s[0]) && !IsSpace(s[k - 1])
    ensures |Trim(s)| >= k
  {
    TrimRightDropsSpace(s);
  }

  lemma {:induction false} TrimRightDropsSpace(s: string)
    ensures forall i :: |TrimRight(s)| <= i < |s| ==> IsSpace(s[i])
  {
    if s != [] && IsSpace(s[|s| - 1]) {
      TrimRightDropsSpace(s[..|s| - 1]);
    }
  }

  /** Every result that the tool-result parser takes for Clawside's is counted as Clawside's by the
      metadata parser, except exactly the misread names. */
  lemma ClawsideResultsAreCounted(msg: Message)
    requires NormalizeToolName(msg, CLAWSIDE).Some?
    ensures MetadataServerAndTool(msg, CLAWSIDE).0 == CLAWSIDE <==> !Misread(msg)
  {
    ClawsideIsSafe();
    var toolName := Trim(msg.toolName);
    if Trim(msg.mcpServer) == "" {
      if MCP + CLAWSIDE + SEP <= toolName {
        McpNameIsCounted(msg, toolName);
      } else {
        assert toolName[0] == 'c' && !(MCP <= toolName);
        if CLAWSIDE + SEP <= toolName {
          PlainNameIsCounted(msg, toolName);
        } else {
          DottedNameIsCounted(msg, toolName);
        }
      }
    }
  }

  lemma McpNameIsCounted(msg: Message, toolName: string)
    requires Trim(msg.mcpServer) == "" && toolName == Trim(msg.toolName) && MCP + CLAWSIDE + SEP <= toolName
    ensures MetadataServerAndTool(msg, CLAWSIDE).0 == CLAWSIDE
  {
    hide Trim;
    hide NormalizeToolName;
    ClawsideIsSafe();
    var x := toolName[|MCP + CLAWSIDE + SEP|..];
    assert toolName[|MCP|..] == CLAWSIDE + SEP + x;
    CutAtFirst(CLAWSIDE, SEP, x);
  }

  lemma DottedNameIsCounted(msg: Message, toolName: string)
    requires Trim(msg.mcpServer) == "" && toolName == Trim(msg.toolName) && CLAWSIDE + DOT <= toolName
    requires !(MCP <= toolName)
    ensures MetadataServerAndTool(msg, CLAWSIDE).0 == CLAWSIDE
  {
    ClawsideIsSafe();
    var x := toolName[|CLAWSIDE + DOT|..];
    assert toolName == CLAWSIDE + DOT + x;
    CutAtFirst(CLAWSIDE, DOT, x);
  }

  lemma PlainNameIsCounted(msg: Message, toolName: string)
    requires Trim(msg.mcpServer) == "" && toolName == Trim(msg.toolName) && CLAWSIDE + SEP <= toolName
    requires !(MCP <= toolName)
    ensures MetadataServerAndTool(msg, CLAWSIDE).0 == CLAWSIDE
       <==> forall i :: 0 <= i < |toolName| ==> toolName[i] != '.'
  {
    if exists i :: 0 <= i < |toolName| && toolName[i] == '.' {
      PointHidesServer(toolName);
    } else {
      NoCut(toolName, DOT);
      ClawsideIsSafe();
      var x := toolName[|CLAWSIDE + SEP|..];
      assert toolName == CLAWSIDE + SEP + x;
      CutAtFirst(CLAWSIDE, SEP, x);
    }
    hide Cut;
    hide SafeToken;
  }

  lemma HeadStaysBeforePoint(toolName: string, head: string)
    requires head <= toolName && head != "" && exists i :: 0 <= i < |toolName| && toolName[i] == '.'
    requires forall i :: 0 <= i < |head| ==> head[i] != '.' && !IsSpace(head[i])
    ensures Cut(toolName, ['.']).Some? && |Trim(Cut(toolName, ['.']).value.0)| >= |head|
  {
    CutBefore(toolName, '.');
    var a := Cut(toolName, ['.']).value.0;
    assert forall i :: 0 <= i < |head| ==> toolName[i] == head[i];
    assert |a| >= |head|;
    assert forall i :: 0 <= i < |head| ==> a[i] == head[i];
    hide Cut;
    TrimKeepsHead(a, |head|);
  }

  lemma HeadChars(head: string)
    requires head == CLAWSIDE + SEP
    ensures |head| == 10 && forall i :: 0 <= i < |head| ==> head[i] != '.' && !IsSpace(head[i])
  {
    assert head == "clawside__";
  }

  lemma PointHidesServer(toolName: string)
    requires CLAWSIDE + SEP <= toolName && exists i :: 0 <= i < |toolName| && toolName[i] == '.'
    ensures Cut(toolName, DOT).Some? && SafeToken(Cut(toolName, DOT).value.0) != CLAWSIDE
  {
    hide Cut;
    hide Trim;
    hide SafeToken;
    hide IsSpace;
    var head := CLAWSIDE + SEP;
    assert DOT == ['.'];
    HeadChars(head);
    HeadStaysBeforePoint(toolName, head);
    var token := SafeToken(Cut(toolName, DOT).value.0);
    assert token == "" || |token| >= 10;
  }

  /** There are such messages. */
  lemma MisreadHappens(msg: Message)
    requires msg.toolName == "clawside__a.b" && msg.mcpServer == ""
    ensures NormalizeToolName(msg, CLAWSIDE).Some? && Misread(msg)
    ensures MetadataServerAndTool(msg, CLAWSIDE).0 != CLAWSIDE
  {
    var name := msg.toolName;
    ClawsideIsSafe();
    assert Trim(name) == name && Trim("") == "";
    assert name[|CLAWSIDE + SEP|..] == "a.b" && CLAWSIDE + SEP <= name && name[11] == '.';
    assert name[0] == 'c' && MCP[0] == 'm';
    assert HasServerPrefix(name, CLAWSIDE);
    hide Cut;
    hide SafeToken;
    hide Trim;
    ClawsideResultsAreCounted(msg);
  }

  // ---------- what is counted as Clawside's ----------

  /** White space only. */
  predicate Blank(s: string) {
    forall i :: 0 <= i < |s| ==> IsSpace(s[i])
  }

  /** The name reads: prefix, then clawside, possibly between white space, then the separator, then anything. */
  ghost predicate Headed(name: string, prefix: string, sep: string) {
    exists before, after, rest :: Blank(before) && Blank(after)
      && name == prefix + (before + CLAWSIDE + after) + sep + rest
  }

  lemma {:induction false} TrimLeftDrops(s: string)
    ensures exists before :: Blank(before) && s == before + TrimLeft(s)
  {
    if s != [] && IsSpace(s[0]) {
      TrimLeftDrops(s[1..]);
      var before :| Blank(before) && s[1..] == before + TrimLeft(s[1..]);
      assert Blank([s[0]] + before) && s == [s[0]] + before + TrimLeft(s);
    } else {
      assert Blank([]) && s == [] + TrimLeft(s);
    }
  }

  lemma TrimRightDrops(s: string)
    ensures exists after :: Blank(after) && s == TrimRight(s) + after
  {
    TrimRightDropsSpace(s);
    var after := s[|TrimRight(s)|..];
    assert Blank(after) && s == TrimRight(s) + after;
  }

  lemma {:induction false} TrimLeftSkips(before: string, s: string)
    requires Blank(before) && s != [] && !IsSpace(s[0])
    ensures TrimLeft(before + s) == s
  {
    if before == [] {
      assert before + s == s;
    } else {
      assert (before + s)[1..] == before[1..] + s;
      TrimLeftSkips(before[1..], s);
    }
  }

  lemma {:induction false} TrimRightSkips(s: string, after: string)
    requires Blank(after) && s != [] && !IsSpace(s[|s| - 1])
    ensures TrimRight(s + after) == s
  {
    if after == [] {
      assert s + after == s;
    } else {
      assert (s + after)[..|s + after| - 1] == s + after[..|after| - 1];
      TrimRightSkips(s, after[..|after| - 1]);
    }
  }

  lemma PaddedTrims(before: string, after: string)
    requires Blank(before) && Blank(after)
    ensures Trim(before + CLAWSIDE + after) == CLAWSIDE
  {
    hide Blank;
    var c := CLAWSIDE;
    assert !IsSpace(c[0]) && !IsSpace(c[|c| - 1]) && c != [];
    assert before + c + after == before + (c + after) && (c + after)[0] == c[0];
    TrimLeftSkips(before, c + after);
    TrimRightSkips(c, after);
  }

  /** A text trims to clawside exactly when it is clawside between white space. */
  lemma TrimsToClawside(s: string)
    ensures Trim(s) == CLAWSIDE
      <==> exists before, after :: Blank(before) && Blank(after) && s == before + CLAWSIDE + after
  {
    hide Blank;
    hide TrimLeft;
    hide TrimRight;
    var c := CLAWSIDE;
    if Trim(s) == c {
      TrimLeftDrops(s);
      TrimRightDrops(TrimLeft(s));
      var before :| Blank(before) && s == before + TrimLeft(s);
      var after :| Blank(after) && TrimLeft(s) == c + after;
      assert s == before + c + after;
    }
    if exists before, after :: Blank(before) && Blank(after) && s == before + c + after {
      var before, after :| Blank(before) && Blank(after) && s == before + c + after;
      PaddedTrims(before, after);
    }
  }

  /** A cut gives back the text, around the first separator. */
  lemma {:induction false} CutJoins(s: string, sep: string)
    requires sep != ""
    ensures Cut(s, sep).Some? ==> s == Cut(s, sep).value.0 + sep + Cut(s, sep).value.1
    decreases |s|
  {
    if !(sep <= s) && s != "" {
      CutJoins(s[1..], sep);
    } else if sep <= s {
      assert s == sep + s[|sep|..] && "" + sep == sep;
    }
  }

  lemma NoSepInClawside(before: string, after: string, sep: string)
    requires Blank(before) && Blank(after) && (sep == SEP || sep == DOT)
    ensures var a := before + CLAWSIDE + after; forall i :: 0 <= i < |a| ==> a[i] != sep[0]
  {
    var c := CLAWSIDE;
    assert forall i :: 0 <= i < |c| ==> c[i] != '_' && c[i] != '.';
    assert !IsSpace('_') && !IsSpace('.');
  }

  lemma CutIsHeaded(name: string, sep: string, before: string, after: string, rest: string)
    requires Blank(before) && Blank(after) && Cut(name, sep) == Some((before + CLAWSIDE + after, rest)) && sep != ""
    ensures Headed(name, "", sep)
  {
    hide Blank;
    CutJoins(name, sep);
    hide Cut;
    assert name == "" + (before + CLAWSIDE + after) + sep + rest;
  }

  lemma HeadedIsCut(name: string, sep: string)
    requires (sep == SEP || sep == DOT) && Headed(name, "", sep)
    ensures Cut(name, sep).Some? && Trim(Cut(name, sep).value.0) == CLAWSIDE
  {
    hide Blank;
    hide Trim;
    hide Cut;
    var before, after, rest :|
      Blank(before) && Blank(after) && name == "" + (before + CLAWSIDE + after) + sep + rest;
    var a := before + CLAWSIDE + after;
    NoSepInClawside(before, after, sep);
    assert name == a + sep + rest;
    CutAtFirst(a, sep, rest);
    TrimsToClawside(a);
  }

  /** Cutting a name at the first separator gives clawside, between white space, exactly when the name is
      headed by it. */
  lemma CutGivesClawside(name: string, sep: string)
    requires sep == SEP || sep == DOT
    ensures Cut(name, sep).Some? && SafeToken(Cut(name, sep).value.0) == CLAWSIDE <==> Headed(name, "", sep)
  {
    hide Headed;
    hide Blank;
    hide Trim;
    hide Cut;
    if Cut(name, sep).Some? {
      var a := Cut(name, sep).value.0;
      SafeClawside(a);
      TrimsToClawside(a);
      hide SafeToken;
      if SafeToken(a) == CLAWSIDE {
        var before, after :| Blank(before) && Blank(after) && a == before + CLAWSIDE + after;
        CutIsHeaded(name, sep, before, after, Cut(name, sep).value.1);
      }
    }
    if Headed(name, "", sep) {
      HeadedIsCut(name, sep);
    }
  }

  /** A safe token is clawside exactly when the text trims to it. */
  lemma SafeClawside(s: string)
    ensures SafeToken(s) == CLAWSIDE <==> Trim(s) == CLAWSIDE
  {
    ClawsideIsSafe();
  }

  predicate HasDot(name: string) {
    exists i :: 0 <= i < |name| && name[i] == '.'
  }

  /** The names that the metadata parser counts as Clawside's when the server is not stated: unlike the
      tool-result parser it lets white space stand around the server. */
  ghost predicate NamesClawside(name: string) {
    Headed(name, MCP, SEP) || Headed(name, "", DOT) || (!HasDot(name) && Headed(name, "", SEP))
  }

  lemma HeadedMcp(name: string)
    ensures Headed(name, MCP, SEP) <==> MCP <= name && Headed(name[|MCP|..], "", SEP)
  {
    hide Blank;
    if Headed(name, MCP, SEP) {
      var before, after, rest :| Blank(before) && Blank(after)
        && name == MCP + (before + CLAWSIDE + after) + SEP + rest;
      assert name[|MCP|..] == "" + (before + CLAWSIDE + after) + SEP + rest;
    }
    if MCP <= name && Headed(name[|MCP|..], "", SEP) {
      var before, after, rest :| Blank(before) && Blank(after)
        && name[|MCP|..] == "" + (before + CLAWSIDE + after) + SEP + rest;
      assert name == MCP + (before + CLAWSIDE + after) + SEP + rest;
    }
  }

  /** A name that starts with the server, or white space, does not start with mcp. */
  lemma HeadedIsNotMcp(name: string, sep: string)
    requires Headed(name, "", sep)
    ensures !(MCP <= name)
  {
    var before, after, rest :| Blank(before) && Blank(after) && name == "" + (before + CLAWSIDE + after) + sep + rest;
    assert !IsSpace('m') && CLAWSIDE[0] == 'c' && MCP[0] == 'm';
    assert name[0] == if before == [] then 'c' else before[0];
  }

  /** The name alone decides when there is no safe server: exactly these names are counted. */
  lemma NameIsCounted(msg: Message)
    requires SafeToken(msg.mcpServer) == ""
    ensures MetadataServerAndTool(msg, CLAWSIDE).0 == CLAWSIDE <==> NamesClawside(Trim(msg.toolName))
  {
    ClawsideIsSafe();
    var name := Trim(msg.toolName);
    HeadedMcp(name);
    if MCP <= name {
      CutGivesClawside(name[|MCP|..], SEP);
    }
    if Headed(name, "", DOT) {
      HeadedIsNotMcp(name, DOT);
    }
    if Headed(name, "", SEP) {
      HeadedIsNotMcp(name, SEP);
    }
    CutGivesClawside(name, DOT);
    CutGivesClawside(name, SEP);
    DotCut(name);
    EmptyIsNotClawside();
    if NormalizeToolName(msg, CLAWSIDE).Some? {
      PrefixNeedsSeparator(msg);
    }
    hide Trim;
    hide Headed;
    hide Cut;
    hide HasDot;
    hide SafeToken;
    hide NormalizeToolName;
  }

  lemma HeadedTightly(name: string, prefix: string, sep: string)
    requires prefix + CLAWSIDE + sep <= name
    ensures Headed(name, prefix, sep)
  {
    var rest := name[|prefix + CLAWSIDE + sep|..];
    assert name == prefix + ("" + CLAWSIDE + "") + sep + rest;
    assert Blank("");
  }

  /** A name without any separator is nobody's. */
  lemma PrefixNeedsSeparator(msg: Message)
    requires SafeToken(msg.mcpServer) == "" && NormalizeToolName(msg, CLAWSIDE).Some?
    ensures var name := Trim(msg.toolName);
      Headed(name, MCP, SEP) || Headed(name, "", SEP) || Headed(name, "", DOT)
  {
    ClawsideIsSafe();
    SafeClawside(msg.mcpServer);
    var name := Trim(msg.toolName);
    hide Trim;
    hide SafeToken;
    hide Headed;
    if MCP + CLAWSIDE + SEP <= name {
      HeadedTightly(name, MCP, SEP);
    } else if CLAWSIDE + SEP <= name {
      assert "" + CLAWSIDE + SEP == CLAWSIDE + SEP;
      HeadedTightly(name, "", SEP);
    } else {
      assert "" + CLAWSIDE + DOT == CLAWSIDE + DOT;
      HeadedTightly(name, "", DOT);
    }
  }

  lemma EmptyIsNotClawside()
    ensures CLAWSIDE != ""
  {
  }

  lemma DotCut(name: string)
    ensures Cut(name, DOT).Some? <==> HasDot(name)
  {
    assert DOT == ['.'];
    if HasDot(name) {
      CutBefore(name, '.');
    } else {
      NoCut(name, DOT);
    }
  }

  /** A message that is counted as Clawside's although the tool-result parser does not take it: the stated
      server, if any, is not a safe token, and the name is Clawside's only to the metadata parser. */
  ghost predicate Overcounted(msg: Message) {
    && SafeToken(msg.mcpServer) == "" && NamesClawside(Trim(msg.toolName))
    && (Trim(msg.mcpServer) != "" || !HasServerPrefix(Trim(msg.toolName), CLAWSIDE))
  }

  /** Exactly where the two parsers disagree, in both directions. */
  lemma ParsersDisagreeExactly(msg: Message)
    ensures var parsed, counted :=
      NormalizeToolName(msg, CLAWSIDE).Some?, MetadataServerAndTool(msg, CLAWSIDE).0 == CLAWSIDE;
      && (parsed && !counted <==> Misread(msg))
      && (counted && !parsed <==> Overcounted(msg))
  {
    ClawsideIsSafe();
    SafeClawside(msg.mcpServer);
    if NormalizeToolName(msg, CLAWSIDE).Some? {
      ClawsideResultsAreCounted(msg);
    }
    if SafeToken(msg.mcpServer) == "" {
      NameIsCounted(msg);
    }
    StatedServerDecides(msg);
    MisreadIsParsed(msg);
    UnsafeServerIsNotClawside(msg);
    hide Trim;
    hide NamesClawside;
    hide MetadataServerAndTool;
    hide SafeToken;
    hide HasServerPrefix;
    hide Misread;
  }

  lemma UnsafeServerIsNotClawside(msg: Message)
    ensures Trim(msg.mcpServer) != "" && Trim(msg.mcpServer) != CLAWSIDE ==> NormalizeToolName(msg, CLAWSIDE).None?
    ensures Trim(msg.mcpServer) == "" ==> SafeToken(msg.mcpServer) == ""
  {
    ClawsideIsSafe();
    hide Trim;
    hide HasServerPrefix;
    hide TrimServerPrefix;
  }

  lemma MisreadIsParsed(msg: Message)
    ensures Misread(msg) ==> NormalizeToolName(msg, CLAWSIDE).Some?
  {
    ClawsideIsSafe();
    hide Trim;
  }

  /** A safe server that is stated is the one that both parsers go by. */
  lemma StatedServerDecides(msg: Message)
    ensures SafeToken(msg.mcpServer) != "" ==>
      && (MetadataServerAndTool(msg, CLAWSIDE).0 == CLAWSIDE <==> Trim(msg.mcpServer) == CLAWSIDE)
      && (NormalizeToolName(msg, CLAWSIDE).Some? <==> Trim(msg.mcpServer) == CLAWSIDE)
  {
    ClawsideIsSafe();
    SafeClawside(msg.mcpServer);
    hide Trim;
    hide Cut;
    hide HasServerPrefix;
    hide TrimServerPrefix;
  }

  /** There are such messages too: white space between the server and the point is enough. */
  lemma OvercountedHappens(msg: Message)
    requires msg.toolName == "clawside .x" && msg.mcpServer == ""
    ensures Overcounted(msg)
  {
    var name := msg.toolName;
    assert Trim(name) == name && Trim("") == "";
    assert name == "" + ("" + CLAWSIDE + " ") + DOT + "x" && Blank("") && Blank(" ");
    assert Headed(name, "", DOT);
    assert name[0] == 'c' && MCP[0] == 'm' && name[8] == ' ' && SEP[0] == '_' && DOT[0] == '.';
    assert (CLAWSIDE + SEP)[8] == '_' && (CLAWSIDE + DOT)[8] == '.';
    assert !HasServerPrefix(name, CLAWSIDE) by {
      assert (MCP + CLAWSIDE + SEP)[0] == 'm';
    }
  }

  // ---------- what the two parsers read from a message ----------

  /** The tool that is left of a name when the server in front of it is taken off, in the first of the three
      ways in which the name can start with it. */
  predicate Strips(name: string, tool: string) {
    if "mcp__clawside__" <= name then name == "mcp__clawside__" + tool
    else if "clawside__" <= name then name == "clawside__" + tool
    else name == "clawside." + tool
  }

  predicate StartsWithServer(name: string) {
    "mcp__clawside__" <= name || "clawside__" <= name || "clawside." <= name
  }

  /** The message is Clawside's by its stated server, or by its name when no server is stated; a stated tool
      goes before the name. */
  predicate Takes(msg: Message, tool: string) {
    var server, stated, name := Trim(msg.mcpServer), Trim(msg.mcpTool), Trim(msg.toolName);
    if server == "" then StartsWithServer(name) && Strips(name, tool)
    else
      var chosen := if stated != "" then stated else name;
      server == "clawside" && if StartsWithServer(chosen) then Strips(chosen, tool) else tool == chosen
  }

  lemma StripsExactly(name: string, tool: string)
    ensures HasServerPrefix(name, CLAWSIDE) <==> StartsWithServer(name)
    ensures StartsWithServer(name) ==> (TrimServerPrefix(name, CLAWSIDE) == tool <==> Strips(name, tool))
    ensures !StartsWithServer(name) ==> TrimServerPrefix(name, CLAWSIDE) == name
  {
    assert MCP + CLAWSIDE + SEP == "mcp__clawside__" && CLAWSIDE + SEP == "clawside__" && CLAWSIDE + DOT == "clawside.";
    if "mcp__clawside__" <= name {
      assert name == "mcp__clawside__" + name[|"mcp__clawside__"|..];
    } else if "clawside__" <= name {
      assert name == "clawside__" + name[|"clawside__"|..];
    } else if "clawside." <= name {
      assert name == "clawside." + name[|"clawside."|..];
    }
  }

  lemma TakesExactly(msg: Message, tool: string)
    ensures NormalizeToolName(msg, CLAWSIDE) == Some(tool) <==> Takes(msg, tool)
  {
    ClawsideIsSafe();
    StripsExactly(Trim(msg.toolName), tool);
    StripsExactly(FirstNonEmpty(Trim(msg.mcpTool), Trim(msg.toolName)), tool);
    hide Trim;
    hide TrimServerPrefix;
    hide HasServerPrefix;
    hide Strips;
    hide StartsWithServer;
  }

  /** The structured content: the message's own when it is an object, else that of the first text which is. */
  ghost predicate IsContent(msg: Message, content: Json) {
    content.Obj? &&
    if msg.structured.Obj? then content == msg.structured
    else exists i :: 0 <= i < |msg.texts| && msg.texts[i] == content && forall j :: 0 <= j < i ==> !msg.texts[j].Obj?
  }

  lemma {:induction false} FirstObjectIs(values: seq<Json>, content: Json)
    ensures FirstObject(values) == Some(content) <==>
      content.Obj? && exists i :: 0 <= i < |values| && values[i] == content && forall j :: 0 <= j < i ==>
        !values[j].Obj?
  {
    if values != [] {
      var rest := values[1..];
      FirstObjectIs(rest, content);
      if !values[0].Obj? {
        if FirstObject(rest) == Some(content) {
          var i :| 0 <= i < |rest| && rest[i] == content && forall j :: 0 <= j < i ==> !rest[j].Obj?;
          assert values[i + 1] == content && forall j :: 1 <= j < i + 1 ==> values[j] == rest[j - 1];
        }
        if content.Obj? && exists i :: 0 <= i < |values| && values[i] == content
                                       && forall j :: 0 <= j < i ==> !values[j].Obj? {
          var i :| 0 <= i < |values| && values[i] == content && forall j :: 0 <= j < i ==> !values[j].Obj?;
          assert rest[i - 1] == content && forall j :: 0 <= j < i - 1 ==> rest[j] == values[j + 1];
        }
      }
    }
  }

  lemma ContentExactly(msg: Message, content: Json)
    ensures FirstObject([msg.structured] + msg.texts) == Some(content) <==> IsContent(msg, content)
  {
    var values := [msg.structured] + msg.texts;
    assert values[0] == msg.structured && values[1..] == msg.texts;
    FirstObjectIs(msg.texts, content);
  }

  /** A message that has content gives the first of its objects as content, else none. */
  lemma ContentFound(msg: Message)
    ensures var first := FirstObject([msg.structured] + msg.texts);
      first.None? <==> forall c :: !IsContent(msg, c)
  {
    var first := FirstObject([msg.structured] + msg.texts);
    hide FirstObject;
    hide IsContent;
    if first.Some? {
      ContentExactly(msg, first.value);
    }
    forall c
      ensures first == Some(c) <==> IsContent(msg, c)
    {
      ContentExactly(msg, c);
    }
  }

  /** The event is a tool result without an error. */
  predicate IsResult(line: Line) {
    line.TrajectoryEvent? && line.kind == "tool.result" && line.raw.Decoded? && !line.raw.message.isError
  }

  /** A line gives a tool result exactly when it is a tool.result event whose message is decoded, is no error
      and is Clawside's, and has structured content; it is an error exactly when it is no JSON, or such an event
      whose message does not decode or, otherwise fit, has no such content. */
  lemma ResultExactly(line: Line, tool: string, content: Json)
    ensures ExtractToolResult(line, CLAWSIDE) == Ok(Some(ToolResult(tool, content))) <==>
      IsResult(line) && Takes(line.raw.message, tool) && IsContent(line.raw.message, content)
    ensures ExtractToolResult(line, CLAWSIDE) == Err(InvalidJson) <==>
      line.NotJson? || (line.kind == "tool.result" && line.raw.BadMessage?)
    ensures ExtractToolResult(line, CLAWSIDE) == Err(MissingStructuredContent) <==>
      IsResult(line) && NormalizeToolName(line.raw.message, CLAWSIDE).Some?
        && forall c :: !IsContent(line.raw.message, c)
  {
    hide FirstObject;
    hide IsContent;
    hide Takes;
    hide NormalizeToolName;
    if line.TrajectoryEvent? && line.raw.Decoded? {
      TakesExactly(line.raw.message, tool);
      ContentExactly(line.raw.message, content);
      ContentFound(line.raw.message);
    }
  }

  /** A token is kept, without the white space around it, exactly when it is not blank, not too long and holds
      only safe characters. */
  lemma SafeTokenExactly(value: string)
    ensures SafeToken(value) ==
      if 0 < |Trim(value)| <= 80 && (forall c :: c in Trim(value) ==> SafeChar(c)) then Trim(value) else ""
    ensures forall c :: SafeChar(c) <==>
      'a' <= c <= 'z' || 'A' <= c <= 'Z' || '0' <= c <= '9' || c in "_-./"
  {
    hide Trim;
    var text := Trim(value);
    assert forall i :: 0 <= i < |text| ==> text[i] in text;
  }

  /** The metadata parser reads the tool behind the server, from each of the three forms of a name and from a
      stated server, so that no forbidden tool goes unnoticed under any of them. */
  lemma MetadataNamesTool(msg: Message, tool: string)
    requires SafeToken(tool) == tool && Trim(tool) == tool && tool != "" && forall i :: 0 <= i < |tool| ==>
      tool[i] != '.'
    ensures Trim(msg.mcpServer) == "" && Trim(msg.toolName) == "mcp__clawside__" + tool ==>
      MetadataServerAndTool(msg, CLAWSIDE) == (CLAWSIDE, tool)
    ensures Trim(msg.mcpServer) == "" && Trim(msg.toolName) == "clawside." + tool ==>
      MetadataServerAndTool(msg, CLAWSIDE) == (CLAWSIDE, tool)
    ensures Trim(msg.mcpServer) == "" && Trim(msg.toolName) == "clawside__" + tool ==>
      MetadataServerAndTool(msg, CLAWSIDE) == (CLAWSIDE, tool)
    ensures Trim(msg.mcpServer) == CLAWSIDE && Trim(msg.mcpTool) == tool ==>
      MetadataServerAndTool(msg, CLAWSIDE) == (CLAWSIDE, tool)
  {
    MetadataOfMcp(msg, tool);
    MetadataOfDotted(msg, tool);
    MetadataOfPlain(msg, tool);
    MetadataOfStated(msg, tool);
    hide MetadataServerAndTool;
    hide SafeToken;
    hide Trim;
  }

  lemma MetadataOfMcp(msg: Message, tool: string)
    requires SafeToken(tool) == tool
    ensures Trim(msg.mcpServer) == "" && Trim(msg.toolName) == "mcp__clawside__" + tool ==>
      MetadataServerAndTool(msg, CLAWSIDE) == (CLAWSIDE, tool)
  {
    hide Trim;
    hide NormalizeToolName;
    ClawsideIsSafe();
    var name := "mcp__clawside__" + tool;
    assert name[|MCP|..] == CLAWSIDE + SEP + tool && MCP <= name;
    CutAtFirst(CLAWSIDE, SEP, tool);
  }

  lemma MetadataOfDotted(msg: Message, tool: string)
    requires SafeToken(tool) == tool
    ensures Trim(msg.mcpServer) == "" && Trim(msg.toolName) == "clawside." + tool ==>
      MetadataServerAndTool(msg, CLAWSIDE) == (CLAWSIDE, tool)
  {
    hide Trim;
    hide NormalizeToolName;
    ClawsideIsSafe();
    var name := "clawside." + tool;
    assert name == CLAWSIDE + DOT + tool && name[0] == 'c' && MCP[0] == 'm';
    CutAtFirst(CLAWSIDE, DOT, tool);
  }

  lemma MetadataOfPlain(msg: Message, tool: string)
    requires SafeToken(tool) == tool && forall i :: 0 <= i < |tool| ==> tool[i] != '.'
    ensures Trim(msg.mcpServer) == "" && Trim(msg.toolName) == "clawside__" + tool ==>
      MetadataServerAndTool(msg, CLAWSIDE) == (CLAWSIDE, tool)
  {
    hide Trim;
    hide NormalizeToolName;
    ClawsideIsSafe();
    var name, head := "clawside__" + tool, "clawside__";
    assert name == CLAWSIDE + SEP + tool && name[0] == 'c' && MCP[0] == 'm';
    assert forall i :: 0 <= i < |head| ==> head[i] != '.';
    NoCut(name, DOT);
    CutAtFirst(CLAWSIDE, SEP, tool);
  }

  lemma MetadataOfStated(msg: Message, tool: string)
    requires SafeToken(tool) == tool && Trim(tool) == tool && tool != ""
    ensures Trim(msg.mcpServer) == CLAWSIDE && Trim(msg.mcpTool) == tool ==>
      MetadataServerAndTool(msg, CLAWSIDE) == (CLAWSIDE, tool)
  {
    SafeClawside(msg.mcpServer);
    hide Cut;
    hide NormalizeToolName;
    hide TrimServerPrefix;
    hide Trim;
  }

  /** A line gives metadata exactly when its kind is a safe token; it is a tool result exactly when the kind is
      tool.result, and only then can a message that does not decode make it an error. */
  lemma MetadataExactly(line: Line)
    ensures var m := ExtractEventMetadata(line, CLAWSIDE);
      && (m.Err? <==> line.NotJson? || (line.kind == "tool.result" && line.raw.BadMessage?))
      && (m.Ok? && m.value.Some? <==> line.TrajectoryEvent? && SafeToken(line.kind) != "" && m.Ok?)
      && (m.Ok? && m.value.Some? ==>
            && m.value.value.kind == SafeToken(line.kind)
            && (m.value.value.toolResult <==> line.kind == "tool.result")
            && (m.value.value.toolResult && line.raw.Decoded? ==>
                  (m.value.value.server, m.value.value.tool) == MetadataServerAndTool(line.raw.message, CLAWSIDE))
            && (!m.value.value.toolResult || !line.raw.Decoded? ==>
                m.value.value.server == "" && m.value.value.tool == ""))
  {
    hide MetadataServerAndTool;
    var kind := "tool.result";
    assert kind[0] == 't';
    ToolResultIsSafe();
    hide SafeToken;
  }

  lemma ToolResultIsSafe()
    ensures SafeToken(TOOL_RESULT) == TOOL_RESULT
  {
    var s := TOOL_RESULT;
    assert s == Trim(s);
    assert forall i :: 0 <= i < |s| ==> SafeChar(s[i]);
  }
}
