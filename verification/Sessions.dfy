/** What a user can do with the editor, as sequences of keys
    (cmd/nexthop/config_tui.go). */
module Sessions {
  import opened Prelude
  import opened Addresses
  import opened Configuration
  import opened Forms
  import opened Keyboard
  import Editors

  function Times(ev: Key, n: nat): seq<Key> {
    if n == 0 then [] else [ev] + Times(ev, n - 1)
  }

  function Typed(line: string): seq<Key> {
    if line == "" then [] else [Char(line[0])] + Typed(line[1..])
  }

  /** Up to the first row, then down to row `r`. */
  function ToRow(rows: nat, r: nat): seq<Key> {
    Times(Up, rows) + Times(Down, r)
  }

  lemma PressFirst(net: Codec, text: Text, v: View, ev: Key, keys: seq<Key>)
    requires !v.quit
    ensures PressAll(net, text, v, [ev] + keys) == PressAll(net, text, Press(net, text, v, ev), keys)
  {
    hide Press;
    assert ([ev] + keys)[1..] == keys;
  }

  // ---------- moving about ----------

  lemma {:induction false} NavUp(net: Codec, text: Text, v: View, n: nat)
    requires v.mode.Nav? && !v.quit && v.sel >= 0
    ensures PressAll(net, text, v, Times(Up, n)) == v.(sel := if v.sel > n then v.sel - n else 0)
    decreases n
  {
    if n > 0 {
      PressFirst(net, text, v, Up, Times(Up, n - 1));
      NavUp(net, text, Press(net, text, v, Up), n - 1);
    }
  }

  lemma {:induction false} NavDown(net: Codec, text: Text, v: View, n: nat)
    requires v.mode.Nav? && !v.quit && 0 <= v.sel && v.sel + n < Rows(v.cfg)
    ensures PressAll(net, text, v, Times(Down, n)) == v.(sel := v.sel + n)
    decreases n
  {
    if n > 0 {
      PressFirst(net, text, v, Down, Times(Down, n - 1));
      NavDown(net, text, Press(net, text, v, Down), n - 1);
    }
  }

  lemma {:induction false} FormUp(net: Codec, text: Text, v: View, n: nat)
    requires v.mode.Form? && !v.quit && v.form.idx >= 0
    ensures PressAll(net, text, v, Times(Up, n)) == v.(form := v.form.(idx := if v.form.idx > n then v.form.idx - n else 0))
    decreases n
  {
    if n > 0 {
      PressFirst(net, text, v, Up, Times(Up, n - 1));
      FormUp(net, text, Press(net, text, v, Up), n - 1);
    }
  }

  lemma {:induction false} FormDown(net: Codec, text: Text, v: View, n: nat)
    requires v.mode.Form? && !v.quit && 0 <= v.form.idx && v.form.idx + n < |FormFields(v.form.target.probe)|
    ensures PressAll(net, text, v, Times(Down, n)) == v.(form := v.form.(idx := v.form.idx + n))
    decreases n
  {
    if n > 0 {
      PressFirst(net, text, v, Down, Times(Down, n - 1));
      FormDown(net, text, Press(net, text, v, Down), n - 1);
    }
  }

  /** Any row can be selected from any other. */
  lemma SelectRow(net: Codec, text: Text, v: View, r: nat)
    requires v.mode.Nav? && !v.quit && 0 <= v.sel < Rows(v.cfg) && r < Rows(v.cfg)
    ensures PressAll(net, text, v, ToRow(Rows(v.cfg), r)) == v.(sel := r)
  {
    hide Press, PressAll;
    PressConcat(net, text, v, Times(Up, Rows(v.cfg)), Times(Down, r));
    NavUp(net, text, v, Rows(v.cfg));
    NavDown(net, text, v.(sel := 0), r);
  }

  // ---------- typing ----------

  lemma {:induction false} TypedFills(net: Codec, text: Text, v: View, line: string)
    requires v.mode.Input? && !v.quit
    ensures PressAll(net, text, v, Typed(line)) == v.(line := v.line.(buf := v.line.buf + line))
    decreases |line|
  {
    if line == "" {
      assert v.line.buf + line == v.line.buf;
    } else {
      PressFirst(net, text, v, Char(line[0]), Typed(line[1..]));
      TypedFills(net, text, Press(net, text, v, Char(line[0])), line[1..]);
      assert v.line.buf + [line[0]] + line[1..] == v.line.buf + line;
    }
  }

  /** A line typed and finished. */
  lemma TypedLine(net: Codec, text: Text, v: View, line: string)
    requires v.mode.Input? && !v.quit && v.line.buf == ""
    ensures PressAll(net, text, v, Typed(line) + [Enter]) == FinishLine(net, text, v.(line := v.line.(buf := line)))
  {
    hide PressAll, FinishLine;
    PressConcat(net, text, v, Typed(line), [Enter]);
    TypedFills(net, text, v, line);
    assert "" + line == line;
    PressOne(net, text, v.(line := v.line.(buf := line)), Enter);
  }

  /** Backspace takes back what was typed last. */
  lemma {:induction false} Erased(net: Codec, text: Text, v: View, n: nat)
    requires v.mode.Input? && !v.quit && n <= |v.line.buf|
    ensures PressAll(net, text, v, Times(Backspace, n))
              == v.(line := v.line.(buf := v.line.buf[..|v.line.buf| - n]))
    decreases n
  {
    if n > 0 {
      PressFirst(net, text, v, Backspace, Times(Backspace, n - 1));
      Erased(net, text, Press(net, text, v, Backspace), n - 1);
    }
  }

  /** Esc leaves a line for where it was opened, and what was typed has no effect; a
      deletion that was asked about is off. */
  lemma EscapeLine(net: Codec, text: Text, v: View, line: string)
    requires v.mode.Input? && !v.quit
    ensures var v' := PressAll(net, text, v, Typed(line) + [Esc]);
            && v'.mode == v.line.back && v'.confirm == None
            && v'.cfg == v.cfg && v'.form == v.form && v'.sel == v.sel && v'.posted == v.posted
  {
    hide PressAll;
    PressConcat(net, text, v, Typed(line), [Esc]);
    TypedFills(net, text, v, line);
    PressOne(net, text, v.(line := v.line.(buf := v.line.buf + line)), Esc);
  }

  // ---------- a global field ----------

  /** Selecting row `k`, Enter, a line, Enter: an accepted line gives that row its
      value and changes nothing else; a rejected one changes nothing at all and is
      there to be typed again. An empty line stands for the text shown. */
  lemma EditGlobal(net: Codec, text: Text, v: View, k: nat, line: string)
    requires Sound(net, v) && v.mode.Nav? && !v.quit && k < 5
    ensures |GLOBAL_FIELDS| == 5
    ensures var s := TrimSpace(if line == "" then ShowGlobal(text, v.cfg, GLOBAL_FIELDS[k]) else line);
            var v' := PressAll(net, text, v, ToRow(Rows(v.cfg), k) + [Enter] + (Typed(line) + [Enter]));
            if RowAccepts(net, text, k, s) then v'.mode.Nav? && RowEdited(text, v.cfg, k, s, v'.cfg)
            else v'.mode.Input? && v'.cfg == v.cfg && v'.line.buf == ""
  {
    var at := v.(sel := k);
    var open := EditSelected(text, at);
    AcceptedGlobal(net, text, v.cfg, k, if line == "" then ShowGlobal(text, v.cfg, GLOBAL_FIELDS[k]) else line);
    hide PressAll, ApplyGlobal, ShowGlobal, RowAccepts, RowEdited, TrimSpace, Sound;
    PressConcat(net, text, v, ToRow(Rows(v.cfg), k) + [Enter], Typed(line) + [Enter]);
    PressConcat(net, text, v, ToRow(Rows(v.cfg), k), [Enter]);
    SelectRow(net, text, v, k);
    PressOne(net, text, at, Enter);
    TypedLine(net, text, open, line);
  }

  // ---------- deleting ----------

  lemma {:induction false} TrimPadded(left: string, c: char, right: string)
    requires Blank(left) && Blank(right) && !IsSpace(c)
    ensures TrimSpace(left + [c] + right) == [c]
    decreases |left| + |right|
  {
    var s := left + [c] + right;
    if left != "" {
      var rest := left[1..];
      assert left == [left[0]] + rest;
      assert Blank(rest) && s == [left[0]] + (rest + [c] + right);
      assert s[1..] == rest + [c] + right;
      TrimPadded(rest, c, right);
    } else if right != "" {
      var rest := right[..|right| - 1];
      assert right == rest + [right[|right| - 1]];
      assert Blank(rest) && s == (left + [c] + rest) + [right[|right| - 1]];
      assert s[0] == c && s[..|s| - 1] == left + [c] + rest;
      TrimPadded(left, c, rest);
    } else {
      assert s == [c];
    }
  }

  /** A y, small or capital, between blanks. */
  ghost predicate SaysYes(s: string) {
    exists left, right :: Blank(left) && Blank(right) && (s == left + ['y'] + right || s == left + ['Y'] + right)
  }

  lemma YesExactly(s: string)
    ensures Yes(s) <==> SaysYes(s)
  {
    if Yes(s) {
      var left, right := TrimSpaceCuts(s);
      assert Blank(left) && Blank(right) && (s == left + ['y'] + right || s == left + ['Y'] + right);
    }
    if SaysYes(s) {
      var left, right :| Blank(left) && Blank(right) && (s == left + ['y'] + right || s == left + ['Y'] + right);
      if s == left + ['y'] + right {
        TrimPadded(left, 'y', right);
      } else {
        TrimPadded(left, 'Y', right);
      }
    }
  }

  /** Selecting target `i`, d, an answer, Enter: the target goes, the others keep their
      order, exactly for a yes. Enter alone says no. */
  lemma DeleteAnswered(net: Codec, text: Text, v: View, i: nat, answer: string)
    requires Sound(net, v) && v.mode.Nav? && !v.quit && i < |v.cfg.targets|
    ensures var v' := PressAll(net, text, v, ToRow(Rows(v.cfg), 5 + i) + [Char('d')] + (Typed(answer) + [Enter]));
            && v'.mode.Nav? && v'.confirm == None && v'.cfg == v.cfg.(targets := v'.cfg.targets)
            && (if SaysYes(answer) then Dropped(v.cfg.targets, i, v'.cfg.targets) else v'.cfg == v.cfg)
            && v'.sel == if 5 + i < Rows(v'.cfg) then 5 + i else Rows(v'.cfg) - 1
  {
    var at := v.(sel := 5 + i);
    var asked := AskDelete(at);
    RemoveKeepsGood(net, v.cfg.targets, i);
    YesExactly(if answer == "" then "n" else answer);
    if answer == "" {
      NoIsNotYes();
    }
    hide PressAll, Yes, SaysYes, Dropped, RemoveAt, TargetsGood, Sound;
    PressConcat(net, text, v, ToRow(Rows(v.cfg), 5 + i) + [Char('d')], Typed(answer) + [Enter]);
    PressConcat(net, text, v, ToRow(Rows(v.cfg), 5 + i), [Char('d')]);
    SelectRow(net, text, v, 5 + i);
    PressOne(net, text, at, Char('d'));
    TypedLine(net, text, asked, answer);
  }

  lemma NoIsNotYes()
    ensures !SaysYes("") && !SaysYes("n")
  {
    YesExactly("");
    YesExactly("n");
    TrimPadded("", 'n', "");
    assert "" + ['n'] + "" == "n";
  }

  // ---------- filling a form ----------

  /** The form is open on target `at`, holding `t`, over what `v` shows. */
  predicate Holding(v: View, at: int, t: Target, v': View) {
    && v'.cfg == v.cfg && v'.sel == v.sel && v'.posted == v.posted && !v'.quit && v'.mode.Form?
    && v'.form.active && v'.form.targetIdx == at && v'.form.target == t
  }

  /** To the top of the form, down to field `j`, Enter, a line, Enter. */
  function FieldKeys(j: nat, line: string): seq<Key> {
    Times(Up, 5) + Times(Down, j) + [Enter] + (Typed(line) + [Enter])
  }

  lemma OpenField(net: Codec, text: Text, v: View, j: nat)
    requires v.mode.Form? && !v.quit && 0 <= v.form.idx <= 5 && j < |FormFields(v.form.target.probe)|
    ensures var f := FormFields(v.form.target.probe)[j];
            PressAll(net, text, v, Times(Up, 5) + Times(Down, j) + [Enter])
              == StartInput(v.(form := v.form.(idx := j)), ShowField(text, v.form.target, f), ToForm(f), Form)
  {
    hide PressAll, FormFields, ShowField;
    PressConcat(net, text, v, Times(Up, 5) + Times(Down, j), [Enter]);
    PressConcat(net, text, v, Times(Up, 5), Times(Down, j));
    FormUp(net, text, v, 5);
    FormDown(net, text, v.(form := v.form.(idx := 0)), j);
    PressOne(net, text, v.(form := v.form.(idx := j)), Enter);
  }

  lemma FillField(net: Codec, text: Text, v: View, j: nat, line: string, t: Target)
    requires Sound(net, v) && v.mode.Form? && !v.quit && line != ""
    requires j < |FormFields(v.form.target.probe)|
    requires ApplyField(net, text, v.cfg.targets, v.form.targetIdx, v.form.target,
                        FormFields(v.form.target.probe)[j], line) == Some(t)
    ensures var v' := PressAll(net, text, v, FieldKeys(j, line));
            && Sound(net, v') && Holding(v, v.form.targetIdx, t, v')
            && v'.form.idx == if j < |FormFields(t.probe)| then j else |FormFields(t.probe)| - 1
  {
    AnyKeysKeepSound(net, text, v, FieldKeys(j, line));
    assert 0 <= v.form.idx <= 4 && v.form.active;
    hide PressAll, Sound, ApplyField, FormFields, ShowField, Times;
    var f := FormFields(v.form.target.probe)[j];
    var open := StartInput(v.(form := v.form.(idx := j)), ShowField(text, v.form.target, f), ToForm(f), Form);
    PressConcat(net, text, v, Times(Up, 5) + Times(Down, j) + [Enter], Typed(line) + [Enter]);
    OpenField(net, text, v, j);
    TypedLine(net, text, open, line);
  }

  /** What can be typed as it stands. */
  predicate Enterable(net: Codec, t: Target) {
    && TargetOK(net, t) && Clean(t)
    && TrimSpace(t.name) == t.name
    && (t.ip != "" ==> TrimSpace(t.ip) == t.ip && net.Legal(t.ip))
    && (t.probe.HTTP? ==> TrimSpace(t.url) == t.url && ("http://" <= t.url || "https://" <= t.url))
  }

  function NameKeys(goal: Target): seq<Key> {
    FieldKeys(0, goal.name)
  }

  function AddressKeys(goal: Target): seq<Key> {
    if goal.ip == "" then [] else FieldKeys(1, goal.ip)
  }

  function EndPointKeys(text: Text, goal: Target): seq<Key> {
    if goal.probe.TCP? || goal.probe.UDP? then FieldKeys(4, text.itoa(goal.port))
    else if goal.probe.HTTP? then FieldKeys(4, goal.url)
    else []
  }

  /** The probe first, for the fields depend on it. */
  function FillKeys(text: Text, goal: Target): seq<Key> {
    FieldKeys(3, ProbeText(goal.probe)) + NameKeys(goal) + AddressKeys(goal)
    + FieldKeys(2, text.itoa(goal.weight)) + EndPointKeys(text, goal)
  }

  /** `t` with one field of the goal. */
  function With(t: Target, goal: Target, f: FormField): Target {
    match f
    case NameField => t.(name := goal.name)
    case IPField => t.(ip := goal.ip)
    case WeightField => t.(weight := goal.weight)
    case ProbeField => SwitchProbe(t, goal.probe)
    case PortField => t.(port := goal.port)
    case URLField => t.(url := goal.url)
  }

  /** Each line of the goal is accepted, whatever the form holds. */
  lemma GoalLine(net: Codec, text: Text, ts: seq<Target>, except: int, t: Target, goal: Target, f: FormField)
    requires TextLawful(text) && Enterable(net, goal) && !NameTaken(ts, except, goal.name)
    requires f == IPField ==> goal.ip != ""
    requires f == PortField ==> goal.probe.TCP? || goal.probe.UDP?
    requires f == URLField ==> goal.probe.HTTP?
    ensures ShowField(text, goal, f) != ""
    ensures ApplyField(net, text, ts, except, t, f, ShowField(text, goal, f)) == Some(With(t, goal, f))
  {
    hide Enterable, TextLawful, TrimSpace, NameTaken;
    GoalTrimmed(net, text, goal, f);
    if f == ProbeField {
      ProbeLine(net, text, ts, except, t, goal);
    } else if f == URLField {
      URLLine(net, text, ts, except, t, goal);
    } else {
      hide Prefixed, ProbeOf, ProbeText, SwitchProbe;
      GoalNumbers(net, text, goal);
    }
  }

  lemma ProbeLine(net: Codec, text: Text, ts: seq<Target>, except: int, t: Target, goal: Target)
    requires TextLawful(text) && !goal.probe.Other? && TrimSpace(ProbeText(goal.probe)) == ProbeText(goal.probe)
    ensures ApplyField(net, text, ts, except, t, ProbeField, ProbeText(goal.probe)) == Some(SwitchProbe(t, goal.probe))
  {
    hide TrimSpace, SwitchProbe;
    assert text.lower(ProbeText(goal.probe)) == ProbeText(goal.probe);
  }

  lemma URLLine(net: Codec, text: Text, ts: seq<Target>, except: int, t: Target, goal: Target)
    requires TrimSpace(goal.url) == goal.url && ("http://" <= goal.url || "https://" <= goal.url)
    ensures ApplyField(net, text, ts, except, t, URLField, goal.url) == Some(t.(url := goal.url))
  {
    hide TrimSpace;
    assert Prefixed(goal.url, "http://") <==> "http://" <= goal.url;
    assert Prefixed(goal.url, "https://") <==> "https://" <= goal.url;
  }

  lemma GoalNumbers(net: Codec, text: Text, goal: Target)
    requires TextLawful(text) && Enterable(net, goal)
    ensures !goal.probe.Other? && goal.name != "" && (goal.ip != "" ==> net.Legal(goal.ip))
    ensures text.atoi(TrimSpace(text.itoa(goal.weight))) == Some(goal.weight) && goal.weight >= 0
    ensures text.atoi(TrimSpace(text.itoa(goal.port))) == Some(goal.port)
    ensures goal.probe.TCP? || goal.probe.UDP? ==> 1 <= goal.port <= 65535
  {
    hide TrimSpace;
  }

  /** The text of the goal is none of it blank, and nothing is lost by trimming it. */
  lemma GoalTrimmed(net: Codec, text: Text, goal: Target, f: FormField)
    requires TextLawful(text) && Enterable(net, goal)
    requires f == IPField ==> goal.ip != ""
    requires f == PortField ==> goal.probe.TCP? || goal.probe.UDP?
    requires f == URLField ==> goal.probe.HTTP?
    ensures ShowField(text, goal, f) != ""
    ensures f != WeightField && f != PortField ==> TrimSpace(ShowField(text, goal, f)) == ShowField(text, goal, f)
    ensures f == URLField ==> "http://" <= goal.url || "https://" <= goal.url
    ensures !goal.probe.Other?
  {
    TrimSpaceIdle(ProbeText(goal.probe));
    assert TrimSpace("") == "";
    assert text.atoi(TrimSpace(text.itoa(goal.weight))) == Some(goal.weight);
    assert text.atoi(TrimSpace(text.itoa(goal.port))) == Some(goal.port);
    hide TrimSpace, Prefixed;
  }

  /** The keys lead to the form holding `t`, with nothing else changed. */
  predicate Reaches(net: Codec, text: Text, v: View, keys: seq<Key>, t: Target) {
    Sound(net, PressAll(net, text, v, keys)) && Holding(v, v.form.targetIdx, t, PressAll(net, text, v, keys))
  }

  lemma ReachesOn(net: Codec, text: Text, v: View, first: seq<Key>, t: Target, next: seq<Key>, t': Target)
    requires Reaches(net, text, v, first, t) && Reaches(net, text, PressAll(net, text, v, first), next, t')
    ensures Reaches(net, text, v, first + next, t')
  {
    hide PressAll, Sound;
    PressConcat(net, text, v, first, next);
  }

  lemma PressNothing(net: Codec, text: Text, v: View)
    ensures PressAll(net, text, v, []) == v
  {
  }

  /** The goal's name is free in the form's place, and all of it can be typed. */
  predicate Fillable(net: Codec, text: Text, v: View, goal: Target) {
    && Sound(net, v) && v.mode.Form? && !v.quit
    && Enterable(net, goal) && !NameTaken(v.cfg.targets, v.form.targetIdx, goal.name)
  }

  lemma StaysFillable(net: Codec, text: Text, v: View, goal: Target, keys: seq<Key>, t: Target)
    requires Fillable(net, text, v, goal) && Reaches(net, text, v, keys, t)
    ensures var v' := PressAll(net, text, v, keys);
            Fillable(net, text, v', goal) && v'.form.target == t && v'.form.targetIdx == v.form.targetIdx
  {
    hide PressAll, Sound, Enterable, NameTaken;
  }

  /** One more field of the goal. */
  lemma FillNext(net: Codec, text: Text, v: View, goal: Target, keys: seq<Key>, t: Target, j: nat, f: FormField)
    requires TextLawful(text) && Fillable(net, text, v, goal) && Reaches(net, text, v, keys, t)
    requires j < |FormFields(t.probe)| && FormFields(t.probe)[j] == f && (t.probe == goal.probe || j < 4)
    requires f == IPField ==> goal.ip != ""
    ensures Reaches(net, text, v, keys + FieldKeys(j, ShowField(text, goal, f)), With(t, goal, f))
  {
    hide Reaches, Fillable, PressAll, TextLawful, FieldKeys, ShowField, With, FormFields;
    StaysFillable(net, text, v, goal, keys, t);
    var v1 := PressAll(net, text, v, keys);
    FillOne(net, text, v1, goal, j, f);
    ReachesOn(net, text, v, keys, t, FieldKeys(j, ShowField(text, goal, f)), With(t, goal, f));
  }

  /** One field of the goal. */
  lemma FillOne(net: Codec, text: Text, v: View, goal: Target, j: nat, f: FormField)
    requires TextLawful(text) && Fillable(net, text, v, goal)
    requires j < |FormFields(v.form.target.probe)| && FormFields(v.form.target.probe)[j] == f
    requires v.form.target.probe == goal.probe || j < 4
    requires f == IPField ==> goal.ip != ""
    ensures Reaches(net, text, v, FieldKeys(j, ShowField(text, goal, f)), With(v.form.target, goal, f))
  {
    FieldOfProbe(v.form.target.probe, j);
    hide PressAll, Sound, ApplyField, FieldKeys, Enterable, NameTaken, With, ShowField, Holding, TextLawful, FormFields;
    GoalLine(net, text, v.cfg.targets, v.form.targetIdx, v.form.target, goal, f);
    FillField(net, text, v, j, ShowField(text, goal, f), With(v.form.target, goal, f));
  }

  lemma FieldOfProbe(p: ProbeMethod, j: nat)
    requires j < |FormFields(p)|
    ensures FormFields(p)[j] == PortField ==> j == 4 && (p.TCP? || p.UDP?)
    ensures FormFields(p)[j] == URLField ==> j == 4 && p.HTTP?
    ensures j == 0 ==> FormFields(p)[j] == NameField
    ensures j == 1 ==> FormFields(p)[j] == IPField
    ensures j == 2 ==> FormFields(p)[j] == WeightField
    ensures j == 3 ==> FormFields(p)[j] == ProbeField
    ensures j == 4 ==> FormFields(p)[j] == if p.HTTP? then URLField else PortField
  {
  }

  /** What the form holds after probe, name and address, and after all. */
  function Headed(t: Target, goal: Target): Target {
    var named := With(With(t, goal, ProbeField), goal, NameField);
    if goal.ip == "" then named else With(named, goal, IPField)
  }

  function Pointed(t: Target, goal: Target): Target {
    if goal.probe.Ping? then t
    else if goal.probe.HTTP? then With(t, goal, URLField)
    else With(t, goal, PortField)
  }

  function Filled(t: Target, goal: Target): Target {
    Pointed(With(Headed(t, goal), goal, WeightField), goal)
  }

  lemma FilledIsGoal(t: Target, goal: Target)
    requires Clean(goal) && !goal.probe.Other?
    ensures Filled(t, goal) == goal.(ip := if goal.ip == "" then t.ip else goal.ip)
    ensures Headed(t, goal).probe == With(t, goal, ProbeField).probe == goal.probe
    ensures With(Headed(t, goal), goal, WeightField).probe == goal.probe
  {
  }

  lemma FillHead(net: Codec, text: Text, v: View, goal: Target)
    requires TextLawful(text) && Fillable(net, text, v, goal)
    ensures Reaches(net, text, v, FieldKeys(3, ProbeText(goal.probe)) + NameKeys(goal) + AddressKeys(goal),
                    Headed(v.form.target, goal))
  {
    var t1 := With(v.form.target, goal, ProbeField);
    var t2 := With(t1, goal, NameField);
    FormStart(v.form.target.probe, t1.probe, t2.probe);
    hide PressAll, Reaches, Fillable, TextLawful, FieldKeys, With, FormFields, ProbeText;
    var probe, named := FieldKeys(3, ProbeText(goal.probe)), FieldKeys(3, ProbeText(goal.probe)) + NameKeys(goal);
    FillOne(net, text, v, goal, 3, ProbeField);
    FillNext(net, text, v, goal, probe, t1, 0, NameField);
    if goal.ip != "" {
      FillNext(net, text, v, goal, named, t2, 1, IPField);
    } else {
      assert named + [] == named;
    }
  }

  lemma FormStart(p: ProbeMethod, q: ProbeMethod, r: ProbeMethod)
    ensures FormFields(p)[3] == ProbeField && FormFields(q)[0] == NameField && FormFields(r)[1] == IPField
  {
  }

  lemma GoalFacts(net: Codec, text: Text, goal: Target)
    requires Enterable(net, goal)
    ensures TargetOK(net, goal) && Clean(goal) && !goal.probe.Other?
    ensures goal.probe.TCP? || goal.probe.UDP? ==> ShowField(text, goal, PortField) == text.itoa(goal.port)
  {
    hide TrimSpace;
  }

  lemma FormEnd(p: ProbeMethod, q: ProbeMethod)
    ensures FormFields(p)[2] == WeightField
    ensures q.HTTP? ==> |FormFields(q)| == 5 && FormFields(q)[4] == URLField
    ensures q.TCP? || q.UDP? ==> |FormFields(q)| == 5 && FormFields(q)[4] == PortField
  {
  }

  lemma FillPoint(net: Codec, text: Text, v: View, goal: Target, keys: seq<Key>, t: Target)
    requires TextLawful(text) && Fillable(net, text, v, goal) && Reaches(net, text, v, keys, t) && t.probe == goal.probe
    ensures Reaches(net, text, v, keys + EndPointKeys(text, goal), Pointed(t, goal))
  {
    GoalFacts(net, text, goal);
    FormEnd(t.probe, t.probe);
    hide Reaches, Fillable, TextLawful, FieldKeys, FormFields, Enterable, With;
    if goal.probe.Ping? {
      assert keys + [] == keys;
    } else if goal.probe.HTTP? {
      FillNext(net, text, v, goal, keys, t, 4, URLField);
    } else {
      FillNext(net, text, v, goal, keys, t, 4, PortField);
    }
  }

  lemma FillAll(net: Codec, text: Text, v: View, goal: Target)
    requires TextLawful(text) && Fillable(net, text, v, goal)
    ensures Reaches(net, text, v, FillKeys(text, goal), Filled(v.form.target, goal))
  {
    var t := Headed(v.form.target, goal);
    var head := FieldKeys(3, ProbeText(goal.probe)) + NameKeys(goal) + AddressKeys(goal);
    GoalFacts(net, text, goal);
    FilledIsGoal(v.form.target, goal);
    FormEnd(t.probe, t.probe);
    hide *;
    FillHead(net, text, v, goal);
    FillNext(net, text, v, goal, head, t, 2, WeightField);
    FillPoint(net, text, v, goal, head + FieldKeys(2, ShowField(text, goal, WeightField)), With(t, goal, WeightField));
  }

  /** Any form can be filled. From whatever it holds, for every valid target that can be
      typed as it stands and whose name is free, there are keys after which the form
      holds that target; only the address of an http target that has none stays what
      it was. */
  lemma AnyFormCanBeFilled(net: Codec, text: Text, v: View, goal: Target)
    requires Sound(net, v) && v.mode.Form? && !v.quit
    requires TextLawful(text) && Enterable(net, goal) && !NameTaken(v.cfg.targets, v.form.targetIdx, goal.name)
    ensures var v' := PressAll(net, text, v, FillKeys(text, goal));
            && Sound(net, v')
            && Holding(v, v.form.targetIdx, goal.(ip := if goal.ip == "" then v.form.target.ip else goal.ip), v')
  {
    hide PressAll, FillKeys, Sound, Enterable, NameTaken, TextLawful, Filled, Clean, TargetOK;
    GoalFacts(net, text, goal);
    FilledIsGoal(v.form.target, goal);
    FillAll(net, text, v, goal);
  }

  // ---------- adding and changing targets ----------

  /** The goal is written back at `at`, and the cursor is on it. */
  predicate Rewritten(v: View, at: int, goal: Target, v': View) {
    && v'.mode.Nav? && v'.cfg == v.cfg.(targets := v'.cfg.targets)
    && Placed(v.cfg.targets, at, goal, v'.cfg.targets)
    && v'.sel == 5 + if at < 0 then |v.cfg.targets| else at
  }

  lemma CommitHeld(net: Codec, text: Text, v: View, at: int, goal: Target, held: View)
    requires Sound(net, v) && Holding(v, at, goal, held) && -1 <= at < |v.cfg.targets|
    requires GlobalsOK(net, v.cfg) && TargetOK(net, goal) && !NameTaken(v.cfg.targets, at, goal.name)
    ensures Rewritten(v, at, goal, PressAll(net, text, held, [Char('s')]))
  {
    CommitIff(net, v.cfg, at, goal);
    hide PressAll, Sound, NameTaken, WellFormed, Placed, TargetOK, GlobalsOK, Committed;
    PressOne(net, text, held, Char('s'));
    CommittedSize(v.cfg.targets, at, goal);
  }

  lemma CommittedSize(ts: seq<Target>, at: int, t: Target)
    requires at < |ts|
    ensures |Committed(ts, at, t)| == |ts| + if at < 0 then 1 else 0
  {
  }

  /** a, the fields, s: the new target comes last, and the cursor is on it. */
  lemma AddSession(net: Codec, text: Text, v: View, goal: Target)
    requires Sound(net, v) && v.mode.Nav? && !v.quit && GlobalsOK(net, v.cfg)
    requires TextLawful(text) && Enterable(net, goal) && !NameTaken(v.cfg.targets, -1, goal.name)
    ensures Rewritten(v, -1, goal, PressAll(net, text, v, [Char('a')] + FillKeys(text, goal) + [Char('s')]))
  {
    var open := OpenForm(v, NEW_TARGET, -1);
    NavKeepsSound(net, text, v, Char('a'));
    EnterableIsValid(net, goal);
    hide PressAll, Sound, FillKeys, Enterable, NameTaken, TextLawful, TargetOK, GlobalsOK;
    PressConcat(net, text, v, [Char('a')] + FillKeys(text, goal), [Char('s')]);
    PressConcat(net, text, v, [Char('a')], FillKeys(text, goal));
    PressOne(net, text, v, Char('a'));
    AnyFormCanBeFilled(net, text, open, goal);
    CommitHeld(net, text, open, -1, goal, PressAll(net, text, open, FillKeys(text, goal)));
  }

  /** Selecting target `i`, Enter, the fields, s: the target is changed in its place. */
  lemma ChangeSession(net: Codec, text: Text, v: View, i: nat, goal: Target)
    requires Sound(net, v) && v.mode.Nav? && !v.quit && GlobalsOK(net, v.cfg) && i < |v.cfg.targets|
    requires TextLawful(text) && Enterable(net, goal) && goal.ip != "" && !NameTaken(v.cfg.targets, i, goal.name)
    ensures Rewritten(v, i, goal,
                      PressAll(net, text, v, ToRow(Rows(v.cfg), 5 + i) + [Enter] + FillKeys(text, goal) + [Char('s')]))
  {
    hide PressAll, Sound, FillKeys, Enterable, NameTaken, TextLawful, TargetOK, GlobalsOK, ToRow, Rewritten;
    var at := v.(sel := 5 + i);
    var open := OpenForm(at, v.cfg.targets[i], i);
    var row := ToRow(Rows(v.cfg), 5 + i) + [Enter];
    SoundRow(net, text, v, i);
    EnterableIsValid(net, goal);
    OpenRow(net, text, v, i);
    PressConcat(net, text, v, row + FillKeys(text, goal), [Char('s')]);
    PressConcat(net, text, v, row, FillKeys(text, goal));
    AnyFormCanBeFilled(net, text, open, goal);
    var held := PressAll(net, text, open, FillKeys(text, goal));
    CommitHeld(net, text, open, i, goal, held);
    SameRewriting(v, open, i, goal, PressAll(net, text, held, [Char('s')]));
  }

  lemma EnterableIsValid(net: Codec, t: Target)
    requires Enterable(net, t)
    ensures TargetOK(net, t)
  {
  }

  lemma SoundRow(net: Codec, text: Text, v: View, i: nat)
    requires Sound(net, v) && v.mode.Nav? && i < |v.cfg.targets|
    ensures 0 <= v.sel < Rows(v.cfg)
    ensures Sound(net, OpenForm(v.(sel := 5 + i), v.cfg.targets[i], i))
  {
    NavKeepsSound(net, text, v.(sel := 5 + i), Enter);
  }

  lemma SameRewriting(v: View, w: View, at: int, goal: Target, v': View)
    requires w.cfg == v.cfg && Rewritten(w, at, goal, v')
    ensures Rewritten(v, at, goal, v')
  {
  }

  lemma OpenRow(net: Codec, text: Text, v: View, i: nat)
    requires v.mode.Nav? && !v.quit && 0 <= v.sel < Rows(v.cfg) && i < |v.cfg.targets|
    ensures PressAll(net, text, v, ToRow(Rows(v.cfg), 5 + i) + [Enter])
              == OpenForm(v.(sel := 5 + i), v.cfg.targets[i], i)
  {
    hide PressAll, ToRow;
    PressConcat(net, text, v, ToRow(Rows(v.cfg), 5 + i), [Enter]);
    SelectRow(net, text, v, 5 + i);
    PressOne(net, text, v.(sel := 5 + i), Enter);
  }

  /** Whatever is done in a form, as long as it is open the configuration is as it was. */
  lemma {:induction false} CancelSession(net: Codec, text: Text, v: View, keys: seq<Key>)
    requires Sound(net, v) && v.form.active && !v.quit
    requires forall n :: 0 <= n <= |keys| ==> PressAll(net, text, v, keys[..n]).form.active
    ensures PressAll(net, text, v, keys).cfg == v.cfg && PressAll(net, text, v, keys).posted == v.posted
    ensures Sound(net, PressAll(net, text, v, keys)) && !PressAll(net, text, v, keys).quit
    decreases |keys|
  {
    hide Press, Sound;
    if keys == [] {
      PressNothing(net, text, v);
    } else {
      var v1 := Press(net, text, v, keys[0]);
      PressKeepsSound(net, text, v, keys[0]);
      PressInForm(net, text, v, keys[0]);
      assert keys == [keys[0]] + keys[1..];
      PressFirst(net, text, v, keys[0], keys[1..]);
      forall n | 0 <= n <= |keys| - 1
        ensures PressAll(net, text, v1, keys[1..][..n]).form.active
      {
        assert keys[..n + 1] == [keys[0]] + keys[1..][..n];
        PressFirst(net, text, v, keys[0], keys[1..][..n]);
      }
      PressNothing(net, text, v1);
      assert keys[1..][..0] == [];
      CancelSession(net, text, v1, keys[1..]);
    }
  }

  /** And Esc, or q, closes the form and leaves it at that. */
  lemma LeaveSession(net: Codec, text: Text, v: View, keys: seq<Key>, last: Key)
    requires Sound(net, v) && v.form.active && !v.quit && (last == Esc || last == Char('q'))
    requires forall n :: 0 <= n <= |keys| ==> PressAll(net, text, v, keys[..n]).form.active
    requires PressAll(net, text, v, keys).mode.Form?
    ensures var v' := PressAll(net, text, v, keys + [last]);
            v'.mode.Nav? && !v'.form.active && v'.cfg == v.cfg && v'.posted == v.posted && !v'.quit
  {
    hide PressAll, Sound;
    CancelSession(net, text, v, keys);
    PressConcat(net, text, v, keys, [last]);
    PressOne(net, text, PressAll(net, text, v, keys), last);
  }

  // ---------- an empty line that changes the configuration ----------

  lemma ValidDevice(net: Codec, c: Config)
    requires WellFormed(net, c)
    ensures !Blank(c.egressDevice)
  {
  }

  lemma TrimSpaceAgain(s: string)
    ensures TrimSpace(TrimSpace(s)) == TrimSpace(s)
  {
    if TrimSpace(s) != "" {
      TrimSpaceIdle(TrimSpace(s));
    }
  }

  /** Two keys down to the egress device, Enter to edit it, Enter on an empty line:
      the blanks around it are gone. */
  method EmptyLineTrims(net: Codec, text: Text, c: Config) returns (after: Config)
    requires WellFormed(net, c)
    ensures after == c.(egressDevice := TrimSpace(c.egressDevice))
  {
    hide WellFormed, TrimSpace, Sound, Editors.Filled;
    var editor := new Editors.Editor(net, text, c);
    editor.Handle(Down);
    editor.Handle(Down);
    editor.Handle(Enter);
    editor.Handle(Enter);
    after := editor.cfg;
    ValidDevice(net, c);
    TrimSpaceAgain(c.egressDevice);
  }

  /** Every valid configuration has a valid neighbour that those keys change. */
  lemma PaddedDevice(net: Codec, c: Config)
    requires WellFormed(net, c)
    ensures var padded := c.(egressDevice := " eth0");
            WellFormed(net, padded) && TrimSpace(padded.egressDevice) == "eth0" != padded.egressDevice
  {
    assert " eth0"[1..] == "eth0" && !IsSpace(" eth0"[1]);
    TrimSpaceIdle("eth0");
  }
}
