// The ArgoCD policy.csv a ClusterDex renders: one line per mapped group, then
// the extra policy lines. The text can be read back.
module Policy {
  import opened Kube
  import opened Names

  const ADMIN := ", role:admin"
  const READONLY := ", role:readonly"
  const PREFIX := "g, "

  datatype Rendering = NotSingleLine(group: string) | Csv(text: string)

  predicate SingleLine(group: string) {
    '\r' !in group && '\n' !in group
  }

  predicate AllSingle(groups: seq<string>) {
    forall g | g in groups :: SingleLine(g)
  }

  function GroupLines(groups: seq<string>, role: string): (lines: seq<string>)
    ensures |lines| == |groups|
  {
    seq(|groups|, i requires 0 <= i < |groups| => PREFIX + groups[i] + role)
  }

  function ExtraLines(extra: seq<string>): (lines: seq<string>)
    ensures |lines| == |extra|
  {
    seq(|extra|, i requires 0 <= i < |extra| => TrimRight(extra[i], {'\n'}))
  }

  function Lines(admins: seq<string>, viewers: seq<string>): seq<string> {
    GroupLines(admins, ADMIN) + GroupLines(viewers, READONLY)
  }

  /** Each line followed by a line feed. */
  function Terminated(lines: seq<string>): string {
    if lines == [] then "" else Terminated(lines[..|lines| - 1]) + lines[|lines| - 1] + "\n"
  }

  /** A line that gives a group this role. */
  predicate Grants(line: string, role: string) {
    |line| >= |PREFIX| + |role| && line[..|PREFIX|] == PREFIX && HasSuffix(line, role)
  }

  function GroupIn(line: string, role: string): string
    requires Grants(line, role)
  {
    line[|PREFIX|..|line| - |role|]
  }

  /** The groups a list of policy lines gives a role to. */
  function GroupsOf(lines: seq<string>, role: string): seq<string> {
    if lines == [] then []
    else
      var rest := GroupsOf(lines[1..], role);
      if Grants(lines[0], role) then [GroupIn(lines[0], role)] + rest else rest
  }

  lemma TerminatedSnoc(lines: seq<string>, line: string)
    ensures Terminated(lines + [line]) == Terminated(lines) + line + "\n"
  {
    assert (lines + [line])[..|lines|] == lines;
  }

  lemma {:induction false} TerminatedConcat(a: seq<string>, b: seq<string>)
    ensures Terminated(a + b) == Terminated(a) + Terminated(b)
  {
    if b == [] {
      assert a + b == a;
    } else {
      var last := |b| - 1;
      TerminatedConcat(a, b[..last]);
      assert a + b == (a + b[..last]) + [b[last]];
      TerminatedSnoc(a + b[..last], b[last]);
    }
  }

  /** Splitting what was terminated gives the lines back, followed by whatever the rest splits into. */
  lemma {:induction false} SplitTerminated(lines: seq<string>, rest: string)
    requires forall line | line in lines :: '\n' !in line
    ensures Split(Terminated(lines) + rest, '\n') == lines + Split(rest, '\n')
  {
    if lines != [] {
      var last := |lines| - 1;
      var line := lines[last];
      SplitTerminated(lines[..last], line + "\n" + rest);
      SplitConcat(line, rest, '\n');
      SplitPlain(line, '\n');
      assert Terminated(lines) + rest == Terminated(lines[..last]) + (line + "\n" + rest);
      assert lines == lines[..last] + [line];
    } else {
      assert Terminated(lines) + rest == rest;
    }
  }

  /** A group line grants its own role, and not the other one: they end differently. */
  lemma GroupLineGrants(group: string, role: string, asked: string)
    requires role in {ADMIN, READONLY} && asked in {ADMIN, READONLY}
    ensures var line := PREFIX + group + role;
      (Grants(line, asked) <==> role == asked) && (role == asked ==> GroupIn(line, role) == group)
  {
    var line := PREFIX + group + role;
    assert line == PREFIX + (group + role);
    assert line[|line| - |role|..] == role;
    assert line[|line| - 1] == role[|role| - 1];
    assert ADMIN[|ADMIN| - 1] == 'n' && READONLY[|READONLY| - 1] == 'y';
    assert HasSuffix(line, asked) ==> line[|line| - |asked|..][|asked| - 1] == line[|line| - 1];
  }

  lemma {:induction false} GroupsOfLines(groups: seq<string>, role: string, asked: string)
    requires role in {ADMIN, READONLY} && asked in {ADMIN, READONLY}
    ensures GroupsOf(GroupLines(groups, role), asked) == if role == asked then groups else []
  {
    if groups != [] {
      var lines := GroupLines(groups, role);
      GroupLineGrants(groups[0], role, asked);
      GroupsOfLines(groups[1..], role, asked);
      assert lines[0] == PREFIX + groups[0] + role;
      assert lines[1..] == GroupLines(groups[1..], role);
      assert groups == [groups[0]] + groups[1..];
    }
  }

  lemma {:induction false} GroupsOfConcat(a: seq<string>, b: seq<string>, role: string)
    ensures GroupsOf(a + b, role) == GroupsOf(a, role) + GroupsOf(b, role)
  {
    if a == [] {
      assert a + b == b;
    } else {
      assert (a + b)[1..] == a[1..] + b;
      GroupsOfConcat(a[1..], b, role);
    }
  }

  lemma LinesDecode(admins: seq<string>, viewers: seq<string>)
    ensures GroupsOf(Lines(admins, viewers), ADMIN) == admins && GroupsOf(Lines(admins, viewers), READONLY) == viewers
  {
    GroupsOfConcat(GroupLines(admins, ADMIN), GroupLines(viewers, READONLY), ADMIN);
    GroupsOfConcat(GroupLines(admins, ADMIN), GroupLines(viewers, READONLY), READONLY);
    GroupsOfLines(admins, ADMIN, ADMIN);
    GroupsOfLines(viewers, READONLY, READONLY);
    GroupsOfLines(admins, ADMIN, READONLY);
    GroupsOfLines(viewers, READONLY, ADMIN);
  }

  lemma LinesAreSingle(admins: seq<string>, viewers: seq<string>)
    requires AllSingle(admins) && AllSingle(viewers)
    ensures forall line | line in Lines(admins, viewers) :: '\n' !in line
  {
    GroupLinesAreSingle(admins, ADMIN);
    GroupLinesAreSingle(viewers, READONLY);
  }

  lemma GroupLinesAreSingle(groups: seq<string>, role: string)
    requires AllSingle(groups) && '\n' !in role
    ensures forall line | line in GroupLines(groups, role) :: '\n' !in line
  {
    forall line | line in GroupLines(groups, role) ensures '\n' !in line {
      var i :| 0 <= i < |groups| && GroupLines(groups, role)[i] == line;
      assert groups[i] in groups && line == PREFIX + groups[i] + role;
    }
  }

  function PolicyText(admins: seq<string>, viewers: seq<string>, extra: seq<string>): string {
    Terminated(Lines(admins, viewers) + ExtraLines(extra))
  }

  /** Rendering fails with the first group that is not a single line. */
  ghost predicate FirstBad(groups: seq<string>, group: string) {
    exists i | 0 <= i < |groups| :: groups[i] == group && !SingleLine(group) && AllSingle(groups[..i])
  }

  /** The first lines of a policy are exactly the group lines in order, whatever
      the extra lines hold, and they decode to the two group lists. */
  lemma PolicyStartsWithGroups(admins: seq<string>, viewers: seq<string>, extra: seq<string>)
    requires AllSingle(admins) && AllSingle(viewers)
    ensures var n, pieces := |admins| + |viewers|, Split(PolicyText(admins, viewers, extra), '\n');
      && n < |pieces| && pieces[..n] == Lines(admins, viewers)
      && GroupsOf(pieces[..n], ADMIN) == admins && GroupsOf(pieces[..n], READONLY) == viewers
      && (extra == [] ==> pieces[n..] == [""])
  {
    LinesAreSingle(admins, viewers);
    LinesDecode(admins, viewers);
    TerminatedConcat(Lines(admins, viewers), ExtraLines(extra));
    SplitTerminated(Lines(admins, viewers), Terminated(ExtraLines(extra)));
  }

  /** t is e without the line feeds at its end. */
  predicate TrimmedTo(e: string, t: string) {
    && |t| <= |e| && t == e[..|t|] && (t == "" || t[|t| - 1] != '\n')
    && forall j | |t| <= j < |e| :: e[j] == '\n'
  }

  lemma TrimsToOne(e: string, t: string)
    requires TrimmedTo(e, t)
    ensures TrimRight(e, {'\n'}) == t
  {
    TrimRightTrims(e, {'\n'});
  }

  /** The lines of all the texts, in order. */
  function AllLines(texts: seq<string>): seq<string> {
    if texts == [] then [] else AllLines(texts[..|texts| - 1]) + Split(texts[|texts| - 1], '\n')
  }

  lemma {:induction false} TerminatedLines(parts: seq<string>)
    ensures Split(Terminated(parts), '\n') == AllLines(parts) + [""]
  {
    if parts != [] {
      var last := |parts| - 1;
      var text := Terminated(parts[..last]);
      TerminatedLines(parts[..last]);
      assert Terminated(parts) == (text + parts[last]) + ['\n'] + "";
      SplitConcat(text + parts[last], "", '\n');
      TextAfterFeed(parts[..last], parts[last]);
    }
  }

  /** Terminated text ends a line, so what follows starts a new one. */
  lemma TextAfterFeed(parts: seq<string>, rest: string)
    requires Split(Terminated(parts), '\n') == AllLines(parts) + [""]
    ensures Split(Terminated(parts) + rest, '\n') == AllLines(parts) + Split(rest, '\n')
  {
    if parts == [] {
      assert Terminated(parts) + rest == rest;
    } else {
      var last := |parts| - 1;
      var body := Terminated(parts[..last]) + parts[last];
      assert Terminated(parts) == body + ['\n'] + "" && Terminated(parts) + rest == body + ['\n'] + rest;
      SplitConcat(body, "", '\n');
      SplitConcat(body, rest, '\n');
      assert (Split(body, '\n') + [""])[..|Split(body, '\n')|] == (AllLines(parts) + [""])[..|AllLines(parts)|];
    }
  }

  /** The whole policy, line by line: a line for every group in order, first the
      administrators, then the readers, and then every line of every extra entry,
      less the line feeds at its end, whatever it says. */
  lemma PolicyLines(admins: seq<string>, viewers: seq<string>, extra: seq<string>, trimmed: seq<string>)
    requires AllSingle(admins) && AllSingle(viewers)
    requires |trimmed| == |extra| && forall i | 0 <= i < |extra| :: TrimmedTo(extra[i], trimmed[i])
    ensures LinesAre(Split(PolicyText(admins, viewers, extra), '\n'), admins, viewers, AllLines(trimmed) + [""])
  {
    forall i | 0 <= i < |extra| ensures ExtraLines(extra)[i] == trimmed[i] { TrimsToOne(extra[i], trimmed[i]); }
    assert ExtraLines(extra) == trimmed;
    LinesAreSingle(admins, viewers);
    TerminatedConcat(Lines(admins, viewers), trimmed);
    SplitTerminated(Lines(admins, viewers), Terminated(trimmed));
    TerminatedLines(trimmed);
    GroupsThen(admins, viewers, AllLines(trimmed) + [""]);
  }

  predicate LinesAre(lines: seq<string>, admins: seq<string>, viewers: seq<string>, rest: seq<string>) {
    var a, v := |admins|, |viewers|;
    && |lines| >= a + v && lines[a + v..] == rest
    && (forall i | 0 <= i < a :: lines[i] == "g, " + admins[i] + ", role:admin")
    && (forall i | 0 <= i < v :: lines[a + i] == "g, " + viewers[i] + ", role:readonly")
  }

  lemma GroupsThen(admins: seq<string>, viewers: seq<string>, rest: seq<string>)
    ensures LinesAre(Lines(admins, viewers) + rest, admins, viewers, rest)
  {
  }

  /** Some trimmed texts there always are. */
  lemma {:induction false} Trimmed(extra: seq<string>) returns (trimmed: seq<string>)
    ensures |trimmed| == |extra| && forall i | 0 <= i < |extra| :: TrimmedTo(extra[i], trimmed[i])
  {
    trimmed := ExtraLines(extra);
    forall i | 0 <= i < |extra| ensures TrimmedTo(extra[i], trimmed[i]) { TrimRightTrims(extra[i], {'\n'}); }
  }

  /** Without extra lines the text determines both group lists. */
  lemma PolicyIsUnambiguous(admins: seq<string>, viewers: seq<string>, otherAdmins: seq<string>, otherViewers: seq<string>)
    requires AllSingle(admins) && AllSingle(viewers) && AllSingle(otherAdmins) && AllSingle(otherViewers)
    requires PolicyText(admins, viewers, []) == PolicyText(otherAdmins, otherViewers, [])
    ensures admins == otherAdmins && viewers == otherViewers
  {
    PolicyStartsWithGroups(admins, viewers, []);
    PolicyStartsWithGroups(otherAdmins, otherViewers, []);
    var pieces := Split(PolicyText(admins, viewers, []), '\n');
    assert |pieces| == |admins| + |viewers| + 1 && |pieces| == |otherAdmins| + |otherViewers| + 1;
  }

  /** No extra line, split at its own line feeds, gives a group this role. */
  ghost predicate Harmless(extra: seq<string>, role: string) {
    forall e, line | e in extra && line in Split(e, '\n') :: !Grants(line, role)
  }

  lemma {:induction false} GroupsOfNone(lines: seq<string>, role: string)
    ensures GroupsOf(lines, role) == [] <==> forall line | line in lines :: !Grants(line, role)
  {
    if lines != [] {
      GroupsOfNone(lines[1..], role);
      assert lines == [lines[0]] + lines[1..];
    }
  }

  /** Trimming trailing line feeds only drops empty lines. */
  lemma {:induction false} TrimmedSplit(e: string, line: string)
    ensures line in Split(TrimRight(e, {'\n'}), '\n') ==> line in Split(e, '\n')
    ensures line in Split(e, '\n') ==> line in Split(TrimRight(e, {'\n'}), '\n') || line == ""
  {
    if e != "" && e[|e| - 1] == '\n' {
      var shorter := e[..|e| - 1];
      assert e == shorter + ['\n'] + "";
      SplitConcat(shorter, "", '\n');
      TrimmedSplit(shorter, line);
    }
  }

  /** The lines of the terminated text are those of its parts, and an empty one. */
  lemma {:induction false} LinesOfTerminated(parts: seq<string>, line: string)
    ensures line in Split(Terminated(parts), '\n') <==> line == "" || exists p | p in parts :: line in Split(p, '\n')
  {
    if parts != [] {
      var last := |parts| - 1;
      LinesOfTerminated(parts[..last], line);
      LinesOfConcat(parts[..last], parts[last], line);
      assert parts == parts[..last] + [parts[last]];
    }
  }

  lemma {:induction false} LinesOfConcat(parts: seq<string>, p: string, line: string)
    ensures line in Split(Terminated(parts) + p + "\n", '\n') <==>
            line in Split(Terminated(parts), '\n') || line in Split(p, '\n') || line == ""
  {
    var text := Terminated(parts);
    SplitConcat(text + p, "", '\n');
    assert text + p + "\n" == (text + p) + ['\n'] + "";
    if parts == [] {
      assert text + p == p;
    } else {
      var last := |parts| - 1;
      var body := Terminated(parts[..last]) + parts[last];
      assert text == body + ['\n'] + "";
      assert text + p == body + ['\n'] + p;
      SplitConcat(body, p, '\n');
      SplitConcat(body, "", '\n');
    }
  }

  lemma HarmlessLines(extra: seq<string>, role: string)
    requires role in {ADMIN, READONLY}
    ensures Harmless(extra, role) <==> forall line | line in Split(Terminated(ExtraLines(extra)), '\n') :: !Grants(line, role)
  {
    var parts := ExtraLines(extra);
    forall line | line in Split(Terminated(parts), '\n') && Harmless(extra, role) ensures !Grants(line, role) {
      LinesOfTerminated(parts, line);
      if line != "" {
        var i :| 0 <= i < |parts| && line in Split(parts[i], '\n');
        TrimmedSplit(extra[i], line);
        assert extra[i] in extra;
      }
    }
    forall e, line | e in extra && line in Split(e, '\n') && Grants(line, role) ensures line in Split(Terminated(parts), '\n') {
      var i :| 0 <= i < |extra| && extra[i] == e;
      TrimmedSplit(e, line);
      assert parts[i] in parts;
      LinesOfTerminated(parts, line);
    }
  }

  /** Reading the whole policy gives back exactly the groups mapped to a role if
      and only if no extra line looks like a group line of that role. */
  lemma PolicyDecodesIff(admins: seq<string>, viewers: seq<string>, extra: seq<string>)
    requires AllSingle(admins) && AllSingle(viewers)
    ensures var lines := Split(PolicyText(admins, viewers, extra), '\n');
      && (GroupsOf(lines, ADMIN) == admins <==> Harmless(extra, ADMIN))
      && (GroupsOf(lines, READONLY) == viewers <==> Harmless(extra, READONLY))
  {
    var rest := Split(Terminated(ExtraLines(extra)), '\n');
    LinesAreSingle(admins, viewers);
    LinesDecode(admins, viewers);
    TerminatedConcat(Lines(admins, viewers), ExtraLines(extra));
    SplitTerminated(Lines(admins, viewers), Terminated(ExtraLines(extra)));
    DecodesIff(Lines(admins, viewers), rest, extra, ADMIN);
    DecodesIff(Lines(admins, viewers), rest, extra, READONLY);
  }

  lemma DecodesIff(lines: seq<string>, rest: seq<string>, extra: seq<string>, role: string)
    requires role in {ADMIN, READONLY} && rest == Split(Terminated(ExtraLines(extra)), '\n')
    ensures GroupsOf(lines + rest, role) == GroupsOf(lines, role) <==> Harmless(extra, role)
  {
    GroupsOfConcat(lines, rest, role);
    GroupsOfNone(rest, role);
    HarmlessLines(extra, role);
    assert GroupsOf(lines, role) + GroupsOf(rest, role) == GroupsOf(lines, role) <==> GroupsOf(rest, role) == [];
  }

  /** An extra line can look like a group line: with extra lines the text alone
      no longer tells the mapped groups. */
  lemma ExtraLinesCanImitateGroups(group: string)
    requires SingleLine(group)
    ensures PolicyText([group], [], []) == PolicyText([], [], [PREFIX + group + ADMIN])
  {
    var line := PREFIX + group + ADMIN;
    assert line[|line| - 1] == ADMIN[|ADMIN| - 1];
    assert Lines([group], []) + ExtraLines([]) == [line];
    assert Lines([], []) + ExtraLines([line]) == [line];
  }

  /** The check before rendering: the first group that spans lines, if any. */
  method FindBadGroup(groups: seq<string>) returns (bad: Option<string>)
    ensures bad.Some? ==> FirstBad(groups, bad.value)
    ensures bad.None? ==> AllSingle(groups)
  {
    for i := 0 to |groups|
      invariant AllSingle(groups[..i])
    {
      if '\r' in groups[i] || '\n' in groups[i] {
        return Some(groups[i]);
      }
    }
    assert groups[..|groups|] == groups;
    return None;
  }

  method AppendGroups(csv: string, groups: seq<string>, role: string) returns (r: string)
    ensures r == csv + Terminated(GroupLines(groups, role))
  {
    r := csv;
    ghost var lines := GroupLines(groups, role);
    for i := 0 to |groups|
      invariant r == csv + Terminated(lines[..i])
    {
      assert lines[..i + 1] == lines[..i] + [lines[i]];
      TerminatedSnoc(lines[..i], lines[i]);
      r := r + PREFIX + groups[i] + role + "\n";
    }
    assert lines[..|groups|] == lines;
  }

  method AppendExtra(csv: string, extra: seq<string>) returns (r: string)
    ensures r == csv + Terminated(ExtraLines(extra))
  {
    r := csv;
    ghost var lines := ExtraLines(extra);
    for i := 0 to |extra|
      invariant r == csv + Terminated(lines[..i])
    {
      assert lines[..i + 1] == lines[..i] + [lines[i]];
      TerminatedSnoc(lines[..i], lines[i]);
      r := r + TrimRight(extra[i], {'\n'}) + "\n";
    }
    assert lines[..|extra|] == lines;
  }

  lemma AllSingleConcat(a: seq<string>, b: seq<string>)
    ensures AllSingle(a + b) <==> AllSingle(a) && AllSingle(b)
  {
    assert forall g | g in a || g in b :: g in a + b;
  }

  lemma PolicyTextInPieces(admins: seq<string>, viewers: seq<string>, extra: seq<string>)
    ensures PolicyText(admins, viewers, extra)
         == Terminated(GroupLines(admins, ADMIN)) + Terminated(GroupLines(viewers, READONLY)) + Terminated(ExtraLines(extra))
  {
    TerminatedConcat(GroupLines(admins, ADMIN), GroupLines(viewers, READONLY));
    TerminatedConcat(Lines(admins, viewers), ExtraLines(extra));
  }

  /** The policy.csv part of renderArgoCDConfigMaps: it fails with the first
      group that is not a single line, and renders the policy otherwise. */
  method RenderPolicy(admins: seq<string>, viewers: seq<string>, extra: seq<string>) returns (r: Rendering)
    ensures r.NotSingleLine? <==> !(AllSingle(admins) && AllSingle(viewers))
    ensures r.NotSingleLine? ==> FirstBad(admins + viewers, r.group)
    ensures r.Csv? ==> r.text == PolicyText(admins, viewers, extra)
  {
    AllSingleConcat(admins, viewers);
    var bad := FindBadGroup(admins + viewers);
    if bad.Some? {
      return NotSingleLine(bad.value);
    }
    var csv := BuildPolicy(admins, viewers, extra);
    return Csv(csv);
  }

  method BuildPolicy(admins: seq<string>, viewers: seq<string>, extra: seq<string>) returns (csv: string)
    ensures csv == PolicyText(admins, viewers, extra)
  {
    csv := AppendGroups("", admins, ADMIN);
    csv := AppendGroups(csv, viewers, READONLY);
    csv := AppendExtra(csv, extra);
    PolicyTextInPieces(admins, viewers, extra);
  }
}
