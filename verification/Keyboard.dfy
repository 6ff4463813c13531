/** The configuration editor as a transition system: what each key does to what it
    shows, and what any keys keep (cmd/nexthop/config_tui.go). */
module Keyboard {
  import opened Prelude
  import opened Addresses
  import opened Configuration
  import opened Forms

  datatype Key = Ignored | Char(ch: char) | Enter | Esc | Up | Down | Backspace

  datatype Mode = Nav | Input | Form

  /** What a finished input line is handed to. */
  datatype Consumer = ToGlobal(global: GlobalField) | ToForm(field: FormField) | ToNobody

  /** The input line: `cur` is kept when nothing is typed. */
  datatype LineState = LineState(cur: string, buf: string, apply: Consumer, back: Mode)

  /** The form edits a copy of target `targetIdx`, or a new one at -1. */
  datatype FormState = FormState(active: bool, target: Target, idx: int, targetIdx: int)

  /** `confirm` is the target a pending deletion is about, `posted` the
      configurations sent to the daemon so far. */
  datatype View = View(
    cfg: Config, sel: int, mode: Mode, line: LineState, confirm: Option<nat>, form: FormState,
    quit: bool, posted: seq<Config>)

  const NEW_TARGET := Target("", "", 100, Ping, 0, "")

  function Rows(c: Config): int {
    |GLOBAL_FIELDS| + |c.targets|
  }

  predicate Yes(s: string) {
    TrimSpace(s) == "y" || TrimSpace(s) == "Y"
  }

  /** What the input line stands for: empty means the current value. */
  function Value(l: LineState): string {
    if l.buf == "" then l.cur else l.buf
  }

  // ---------- navigation ----------

  function StartInput(v: View, cur: string, apply: Consumer, back: Mode): View {
    v.(mode := Input, line := LineState(cur, "", apply, back), confirm := None)
  }

  function OpenForm(v: View, t: Target, at: int): View {
    v.(mode := Form, form := FormState(true, t, 0, at))
  }

  /** editSel */
  function EditSelected(text: Text, v: View): View {
    if 0 <= v.sel < |GLOBAL_FIELDS| then
      StartInput(v, ShowGlobal(text, v.cfg, GLOBAL_FIELDS[v.sel]), ToGlobal(GLOBAL_FIELDS[v.sel]), Nav)
    else if |GLOBAL_FIELDS| <= v.sel < Rows(v.cfg) then
      OpenForm(v, v.cfg.targets[v.sel - |GLOBAL_FIELDS|], v.sel - |GLOBAL_FIELDS|)
    else v
  }

  /** deleteTarget: asks first, with "n" for an empty answer. */
  function AskDelete(v: View): View {
    if |GLOBAL_FIELDS| <= v.sel < Rows(v.cfg) then
      v.(mode := Input, line := LineState("n", "", ToNobody, Nav), confirm := Some(v.sel - |GLOBAL_FIELDS|))
    else v
  }

  /** save */
  function Save(net: Codec, v: View): View {
    if WellFormed(net, v.cfg) then v.(posted := v.posted + [v.cfg]) else v
  }

  function PressNav(net: Codec, text: Text, v: View, ev: Key): View {
    match ev
    case Up => if v.sel > 0 then v.(sel := v.sel - 1) else v
    case Down => if v.sel < Rows(v.cfg) - 1 then v.(sel := v.sel + 1) else v
    case Enter => EditSelected(text, v)
    case Char(ch) =>
      if ch == 'a' then OpenForm(v, NEW_TARGET, -1)
      else if ch == 'd' then AskDelete(v)
      else if ch == 's' then Save(net, v)
      else if ch == 'q' then v.(quit := true)
      else v
    case Esc => v.(quit := true)
    case _ => v
  }

  // ---------- the form ----------

  function CloseForm(v: View): View {
    v.(mode := Nav, form := v.form.(active := false))
  }

  /** commitTargetForm */
  function CommitForm(net: Codec, v: View): View {
    if v.form.targetIdx >= |v.cfg.targets| then v
    else
      var next := v.cfg.(targets := Committed(v.cfg.targets, v.form.targetIdx, v.form.target));
      if WellFormed(net, next)
      then CloseForm(v.(cfg := next, sel := if v.form.targetIdx < 0 then Rows(next) - 1
                                            else |GLOBAL_FIELDS| + v.form.targetIdx))
      else v
  }

  function PressForm(net: Codec, text: Text, v: View, ev: Key): View {
    var fields := FormFields(v.form.target.probe);
    match ev
    case Up => if v.form.idx > 0 then v.(form := v.form.(idx := v.form.idx - 1)) else v
    case Down => if v.form.idx < |fields| - 1 then v.(form := v.form.(idx := v.form.idx + 1)) else v
    case Enter =>
      if 0 <= v.form.idx < |fields|
      then StartInput(v, ShowField(text, v.form.target, fields[v.form.idx]), ToForm(fields[v.form.idx]), Form)
      else v
    case Char(ch) => if ch == 's' then CommitForm(net, v) else if ch == 'q' then CloseForm(v) else v
    case Esc => CloseForm(v)
    case _ => v
  }

  // ---------- the input line ----------

  function Reject(v: View): View {
    v.(line := v.line.(buf := ""))
  }

  /** The answer to a pending deletion. */
  function Answer(v: View): View {
    var v' := v.(confirm := None, mode := Nav);
    if v.confirm.Some? && v.confirm.value < |v.cfg.targets| && Yes(Value(v.line)) then
      var c := v.cfg.(targets := RemoveAt(v.cfg.targets, v.confirm.value));
      v'.(cfg := c, sel := if v.sel >= Rows(c) then Rows(c) - 1 else v.sel)
    else v'
  }

  function Clamp(idx: int, p: ProbeMethod): int {
    if idx >= |FormFields(p)| - 1 then |FormFields(p)| - 1 else idx
  }

  /** Enter on the input line: a rejected line is there to be typed again. */
  function FinishLine(net: Codec, text: Text, v: View): View {
    if v.confirm.Some? then Answer(v)
    else
      match v.line.apply
      case ToGlobal(f) =>
        (match ApplyGlobal(net, text, v.cfg, f, Value(v.line))
         case None => Reject(v)
         case Some(c) => v.(cfg := c, mode := v.line.back))
      case ToForm(f) =>
        (match ApplyField(net, text, v.cfg.targets, v.form.targetIdx, v.form.target, f, Value(v.line))
         case None => Reject(v)
         case Some(t) => v.(form := v.form.(target := t, idx := Clamp(v.form.idx, t.probe)), mode := v.line.back))
      case ToNobody => v
  }

  function PressInput(net: Codec, text: Text, v: View, ev: Key): View {
    match ev
    case Char(ch) => v.(line := v.line.(buf := v.line.buf + [ch]))
    case Backspace => if v.line.buf != "" then v.(line := v.line.(buf := v.line.buf[..|v.line.buf| - 1])) else v
    case Enter => FinishLine(net, text, v)
    case Esc => v.(confirm := None, mode := v.line.back)
    case _ => v
  }

  // ---------- all keys ----------

  function Press(net: Codec, text: Text, v: View, ev: Key): View {
    match v.mode
    case Input => PressInput(net, text, v, ev)
    case Form => PressForm(net, text, v, ev)
    case Nav => PressNav(net, text, v, ev)
  }

  /** Keys one after the other, until one quits. */
  function PressAll(net: Codec, text: Text, v: View, keys: seq<Key>): View
    decreases |keys|
  {
    if keys == [] || v.quit then v else PressAll(net, text, Press(net, text, v, keys[0]), keys[1..])
  }

  lemma {:induction false} PressConcat(net: Codec, text: Text, v: View, a: seq<Key>, b: seq<Key>)
    ensures PressAll(net, text, v, a + b) == PressAll(net, text, PressAll(net, text, v, a), b)
    decreases |a|
  {
    hide Press;
    if a == [] {
      assert a + b == b;
    } else if !v.quit {
      assert (a + b)[1..] == a[1..] + b;
      PressConcat(net, text, Press(net, text, v, a[0]), a[1..], b);
    }
  }

  lemma PressOne(net: Codec, text: Text, v: View, ev: Key)
    requires !v.quit
    ensures PressAll(net, text, v, [ev]) == Press(net, text, v, ev)
  {
    hide Press;
    var v' := Press(net, text, v, ev);
    assert [ev][1..] == [] && PressAll(net, text, v', []) == v';
  }

  // ---------- what any keys keep ----------

  /** The cursors are in range, each mode has what it needs, the index a pending
      deletion captured is still a target, the targets are distinct and valid one by
      one (there may be none), and only well-formed configurations were sent. */
  predicate Sound(net: Codec, v: View) {
    && 0 <= v.sel < Rows(v.cfg)
    && 0 <= v.form.idx < |FormFields(v.form.target.probe)|
    && (v.form.active <==> v.mode.Form? || (v.mode.Input? && v.line.back.Form?))
    && (v.form.active ==> -1 <= v.form.targetIdx < |v.cfg.targets|)
    && (v.confirm.Some? ==> v.mode.Input? && v.line.back.Nav? && v.confirm.value < |v.cfg.targets|)
    && (v.mode.Input? ==> !v.line.back.Input?)
    && (v.mode.Input? && v.confirm.None? ==>
          if v.line.back.Form? then v.line.apply.ToForm? && v.line.apply.field in FormFields(v.form.target.probe)
          else v.line.apply.ToGlobal?)
    && TargetsGood(net, v.cfg.targets)
    && forall i :: 0 <= i < |v.posted| ==> WellFormed(net, v.posted[i])
  }

  lemma NavKeepsSound(net: Codec, text: Text, v: View, ev: Key)
    requires Sound(net, v) && v.mode.Nav?
    ensures Sound(net, PressNav(net, text, v, ev))
  {
    hide TargetsGood, WellFormed, ShowGlobal;
  }

  lemma FormKeepsSound(net: Codec, text: Text, v: View, ev: Key)
    requires Sound(net, v) && v.mode.Form?
    ensures Sound(net, PressForm(net, text, v, ev))
  {
    if ev == Char('s') {
      CommitKeepsSound(net, v);
    }
    hide TargetsGood, WellFormed, ShowField;
  }

  lemma CommitKeepsSound(net: Codec, v: View)
    requires Sound(net, v) && v.mode.Form?
    ensures Sound(net, CommitForm(net, v))
  {
    var next := v.cfg.(targets := Committed(v.cfg.targets, v.form.targetIdx, v.form.target));
    if WellFormed(net, next) {
      WellFormedTargets(net, next);
    }
    hide TargetsGood, WellFormed;
  }

  lemma InputKeepsSound(net: Codec, text: Text, v: View, ev: Key)
    requires Sound(net, v) && v.mode.Input?
    ensures Sound(net, PressInput(net, text, v, ev))
  {
    if v.confirm.Some? {
      RemoveKeepsGood(net, v.cfg.targets, v.confirm.value);
    }
    hide TargetsGood, WellFormed, ApplyField, ApplyGlobal, Yes, RemoveAt;
  }

  lemma PressKeepsSound(net: Codec, text: Text, v: View, ev: Key)
    requires Sound(net, v)
    ensures Sound(net, Press(net, text, v, ev))
  {
    hide Sound, PressNav, PressForm, PressInput;
    match v.mode
    case Nav => NavKeepsSound(net, text, v, ev);
    case Form => FormKeepsSound(net, text, v, ev);
    case Input => InputKeepsSound(net, text, v, ev);
  }

  /** Over all key sequences. */
  lemma {:induction false} AnyKeysKeepSound(net: Codec, text: Text, v: View, keys: seq<Key>)
    requires Sound(net, v)
    ensures Sound(net, PressAll(net, text, v, keys))
    decreases |keys|
  {
    hide Sound, Press;
    if keys != [] && !v.quit {
      PressKeepsSound(net, text, v, keys[0]);
      AnyKeysKeepSound(net, text, Press(net, text, v, keys[0]), keys[1..]);
    }
  }

  /** What can be done while no line and no form is open. A new target starts as a
      ping target of weight 100; only a well-formed configuration is sent; Esc and q
      quit. Nothing changes the configuration. */
  lemma NavKeys(net: Codec, text: Text, v: View, ev: Key)
    requires Sound(net, v) && v.mode.Nav?
    ensures var v' := Press(net, text, v, ev);
            && v'.cfg == v.cfg
            && v'.posted == (if ev == Char('s') && WellFormed(net, v.cfg) then v.posted + [v.cfg] else v.posted)
            && (v'.quit <==> v.quit || ev == Esc || ev == Char('q'))
            && (ev == Char('a') ==>
                  v'.mode.Form? && v'.form == FormState(true, Target("", "", 100, Ping, 0, ""), 0, -1))
            && (ev == Enter && v.sel >= 5 ==>
                  v'.mode.Form? && v'.form == FormState(true, v.cfg.targets[v.sel - 5], 0, v.sel - 5))
  {
    hide TargetsGood, WellFormed, ShowGlobal;
  }

  /** A form is edited on a copy: while it is open a key changes the configuration
      only by committing it. */
  lemma PressInForm(net: Codec, text: Text, v: View, ev: Key)
    requires Sound(net, v) && v.form.active
    ensures var v' := Press(net, text, v, ev);
            && (v'.cfg == v.cfg || (ev == Char('s') && v.mode.Form? && WellFormed(net, v'.cfg) && !v'.form.active))
            && v'.posted == v.posted && v'.quit == v.quit
  {
    hide TargetsGood, WellFormed, ShowField, ApplyField;
  }

  /** Targets change by a confirmed deletion or a committed form only. */
  lemma TargetsChangeOnly(net: Codec, text: Text, v: View, ev: Key)
    requires Sound(net, v) && Press(net, text, v, ev).cfg.targets != v.cfg.targets
    ensures var v' := Press(net, text, v, ev);
            || (v.mode.Form? && ev == Char('s') && WellFormed(net, v'.cfg)
                && Placed(v.cfg.targets, v.form.targetIdx, v.form.target, v'.cfg.targets))
            || (v.mode.Input? && ev == Enter && v.confirm.Some?
                && Dropped(v.cfg.targets, v.confirm.value, v'.cfg.targets))
  {
    if v.form.active {
      CommitIff(net, v.cfg, v.form.targetIdx, v.form.target);
    }
    if v.confirm.Some? {
      RemoveKeepsGood(net, v.cfg.targets, v.confirm.value);
    }
    hide TargetsGood, WellFormed, ShowField, ShowGlobal, ApplyField, Yes, RemoveAt, Committed, Placed, Dropped;
  }
}
