/** The configuration editor as it runs: an object updated in place. Each handler is
    proved to be the step of the transition system for its key
    (cmd/nexthop/config_tui.go). */
module Editors {
  import opened Prelude
  import opened Addresses
  import opened Configuration
  import opened Forms
  import opened Keyboard

  /** The configuration and the target the form was opened on, and the lines handed
      to its fields since. */
  datatype History = History(base: Config, start: Target, entries: seq<Entry>)

  ghost function Longer(h: History, e: Entry): History {
    h.(entries := h.entries + [e])
  }

  /** The form holds what the lines entered, each into a field shown, make of its start. */
  ghost predicate Filled(net: Codec, text: Text, v: View, h: History) {
    && v.form.target == Entered(net, text, v.cfg.targets, v.form.targetIdx, h.start, h.entries)
    && ToShown(net, text, v.cfg.targets, v.form.targetIdx, h.start, h.entries)
  }

  /** Every field that the form's probe needs has been given. */
  ghost predicate Complete(net: Codec, text: Text, v: View, h: History) {
    forall f :: Needs(v.form.target.probe, f) ==>
      Given(net, text, v.cfg.targets, v.form.targetIdx, h.start, h.entries, f)
  }

  /** The form is written back, added at the end or put in its target's place, and only
      if the configuration is then well formed; or nothing changes. */
  predicate Committing(net: Codec, v: View, v': View) {
    if v'.mode.Nav? then
      && WellFormed(net, v'.cfg) && v'.cfg == v.cfg.(targets := v'.cfg.targets)
      && Placed(v.cfg.targets, v.form.targetIdx, v.form.target, v'.cfg.targets)
    else v' == v
  }

  lemma CommitDecided(net: Codec, text: Text, v: View, h: History)
    requires Sound(net, v) && v.mode.Form? && Filled(net, text, v, h)
    ensures Committing(net, v, CommitForm(net, v))
    ensures !net.Legal("") ==> (CommitForm(net, v).mode.Nav? <==> GlobalsOK(net, v.cfg) && Complete(net, text, v, h))
  {
    CommitIff(net, v.cfg, v.form.targetIdx, v.form.target);
    if !net.Legal("") {
      FormIsValidIffGiven(net, text, v.cfg.targets, v.form.targetIdx, h.start, h.entries);
    }
    hide Sound, WellFormed, GlobalsOK, TargetOK, Entered, Given, Needs, Placed, Committed;
  }

  class Editor {
    const net: Codec
    const text: Text
    var cfg: Config
    var sel: int
    var mode: Mode
    var inputCur: string
    var inputBuf: string
    var inputApply: Consumer
    var inputReturn: Mode
    /** The target a pending deletion is about. */
    var confirm: Option<nat>
    var formActive: bool
    var formTarget: Target
    var formIdx: int
    var formTargetIdx: int
    var quit: bool
    /** The configurations sent to the daemon so far. */
    var posted: seq<Config>
    ghost var history: History

    ghost function State(): View
      reads this
    {
      View(cfg, sel, mode, LineState(inputCur, inputBuf, inputApply, inputReturn), confirm,
           FormState(formActive, formTarget, formIdx, formTargetIdx), quit, posted)
    }

    /** What any keys keep; and the form is on the configuration it was opened on and
        holds what the lines entered make of its start. */
    ghost predicate Valid()
      reads this
    {
      && Sound(net, State())
      && (formActive ==> cfg == history.base && Filled(net, text, State(), history))
    }

    /** Opened on a configuration the daemon runs. */
    constructor (net: Codec, text: Text, cfg: Config)
      requires WellFormed(net, cfg)
      ensures Valid() && this.net == net && this.text == text
      ensures this.cfg == cfg && posted == [] && !quit && mode == Nav && sel == 0 && !formActive
    {
      this.net, this.text, this.cfg := net, text, cfg;
      sel, mode, quit, posted, confirm := 0, Nav, false, [], None;
      inputCur, inputBuf, inputApply, inputReturn := "", "", ToNobody, Nav;
      formActive, formIdx, formTargetIdx := false, 0, 0;
      formTarget := Target("", "", 0, Other(""), 0, "");
      history := History(cfg, Target("", "", 0, Other(""), 0, ""), []);
    }

    // ---------- navigation ----------

    method StartInput(cur: string, apply: Consumer, back: Mode)
      modifies this`mode, this`inputCur, this`inputBuf, this`inputApply, this`inputReturn, this`confirm
      ensures State() == Keyboard.StartInput(old(State()), cur, apply, back)
    {
      mode, inputCur, inputBuf, inputApply, inputReturn, confirm := Input, cur, "", apply, back, None;
    }

    method OpenForm(t: Target, at: int)
      modifies this`mode, this`formActive, this`formTarget, this`formIdx, this`formTargetIdx
      modifies this`history
      ensures State() == Keyboard.OpenForm(old(State()), t, at)
      ensures history == History(cfg, t, [])
    {
      hide Valid, Filled;
      formTarget, formTargetIdx, formIdx := t, at, 0;
      formActive, mode := true, Form;
      history := History(cfg, t, []);
    }

    method EditSel()
      requires Valid() && mode == Nav
      modifies this
      ensures Valid() && State() == EditSelected(text, old(State()))
      ensures formActive ==> history == History(cfg, formTarget, [])
    {
      NavKeepsSound(net, text, State(), Enter);
      hide Sound;
      assert 0 <= sel < TotalLines();
      if sel < |GLOBAL_FIELDS| {
        var f := GLOBAL_FIELDS[sel];
        StartInput(ShowGlobal(text, cfg, f), ToGlobal(f), Nav);
        return;
      }
      var idx := sel - |GLOBAL_FIELDS|;
      OpenForm(cfg.targets[idx], idx);
    }

    method AddTarget()
      requires Valid() && mode == Nav
      modifies this
      ensures Valid() && State() == Keyboard.OpenForm(old(State()), Target("", "", 100, Ping, 0, ""), -1)
      ensures history == History(cfg, formTarget, [])
    {
      NavKeepsSound(net, text, State(), Char('a'));
      hide Sound;
      OpenForm(Target("", "", 100, Ping, 0, ""), -1);
    }

    /** Asks about the selected target, with "n" for an empty answer. */
    method DeleteTarget()
      requires Valid() && mode == Nav
      modifies this`confirm, this`mode, this`inputCur, this`inputBuf, this`inputApply, this`inputReturn
      ensures Valid() && State() == AskDelete(old(State()))
      ensures if sel < |GLOBAL_FIELDS| then confirm == old(confirm) && mode == Nav
              else confirm == Some(sel - |GLOBAL_FIELDS|) && mode == Input && inputCur == "n" && inputBuf == ""
    {
      NavKeepsSound(net, text, State(), Char('d'));
      var idx := sel - |GLOBAL_FIELDS|;
      if idx < 0 || idx >= |cfg.targets| {
        return;
      }
      confirm, mode, inputCur, inputBuf := Some(idx), Input, "n", "";
      inputApply, inputReturn := ToNobody, Nav;
    }

    /** Sends the configuration if, and only if, it is well formed. */
    method Save()
      requires Valid() && mode == Nav
      modifies this`posted
      ensures Valid() && State() == Keyboard.Save(net, old(State()))
      ensures posted == if WellFormed(net, cfg) then old(posted) + [cfg] else old(posted)
    {
      NavKeepsSound(net, text, State(), Char('s'));
      var errs := Validate(net, cfg);
      if |errs| > 0 {
        return;
      }
      posted := posted + [cfg];
    }

    // ---------- the form ----------

    /** The form's target could be written back: it has a name, nobody else has it, and
        the configuration validates. */
    method Committable() returns (trial: Config, ok: bool)
      requires Valid() && mode == Form
      ensures trial == cfg.(targets := Committed(cfg.targets, formTargetIdx, formTarget))
      ensures ok <==> WellFormed(net, trial)
    {
      CommitIff(net, cfg, formTargetIdx, formTarget);
      hide WellFormed, GlobalsOK, TargetOK, Sound, Placed;
      trial := cfg.(targets := Committed(cfg.targets, formTargetIdx, formTarget));
      if formTarget.name == "" {
        NamelessIsInvalid(net, formTarget);
        return trial, false;
      }
      for i := 0 to |cfg.targets|
        invariant forall k :: 0 <= k < i && k != formTargetIdx ==> cfg.targets[k].name != formTarget.name
      {
        if i != formTargetIdx && cfg.targets[i].name == formTarget.name {
          return trial, false;
        }
      }
      var errs := Validate(net, trial);
      ok := |errs| == 0;
    }

    /** Writes the form back only if the whole configuration is then well formed:
        added at the end, or in place of the target it was opened on. Otherwise the
        form stays open and nothing changes. That is decided by what was entered:
        every needed field, and the global fields being in order. */
    method CommitTargetForm()
      requires Valid() && mode == Form
      modifies this`cfg, this`sel, this`formActive, this`mode
      ensures Valid() && State() == CommitForm(net, old(State()))
      ensures Committing(net, old(State()), State())
      ensures !net.Legal("") ==> (mode == Nav <==> GlobalsOK(net, old(cfg)) && old(Complete(net, text, State(), history)))
    {
      CommitKeepsSound(net, State());
      CommitDecided(net, text, State(), history);
      var trial, ok := Committable();
      if !ok {
        return;
      }
      cfg := trial;
      if formTargetIdx < 0 {
        sel := |GLOBAL_FIELDS| + |cfg.targets| - 1;
      } else {
        sel := |GLOBAL_FIELDS| + formTargetIdx;
      }
      formActive, mode := false, Nav;
    }

    method CancelTargetForm()
      requires Valid() && mode == Form
      modifies this`formActive, this`mode
      ensures Valid() && State() == CloseForm(old(State())) && cfg == history.base
    {
      FormKeepsSound(net, text, State(), Esc);
      hide Sound;
      formActive, mode := false, Nav;
    }

    method HandleForm(ev: Key)
      requires Valid() && mode == Form
      modifies this
      ensures Valid() && State() == PressForm(net, text, old(State()), ev)
      ensures history == old(history)
      ensures formActive || ev != Char('s') ==> cfg == old(history).base
      ensures ev == Char('s') ==> Committing(net, old(State()), State())
      ensures ev == Char('s') && !net.Legal("") ==> (mode == Nav <==> GlobalsOK(net, old(cfg)) && old(Complete(net, text, State(), history)))
    {
      FormKeepsSound(net, text, State(), ev);
      FormCursor(net, State());
      hide Sound, WellFormed, GlobalsOK, Entered, ToShown, Given, Needs, ShowField, CommitForm, Placed;
      var fields := FormFields(formTarget.probe);
      match ev {
        case Up =>
          if formIdx > 0 {
            formIdx := formIdx - 1;
          }
        case Down =>
          if formIdx < |fields| - 1 {
            formIdx := formIdx + 1;
          }
        case Enter =>
          var f := fields[formIdx];
          StartInput(ShowField(text, formTarget, f), ToForm(f), Form);
        case Char(ch) =>
          if ch == 's' {
            CommitTargetForm();
          } else if ch == 'q' {
            CancelTargetForm();
          }
        case Esc =>
          CancelTargetForm();
        case _ =>
      }
    }

    // ---------- the input line ----------

    /** What the input line stands for: empty means the current value. */
    function Line(): string
      reads this
    {
      if inputBuf == "" then inputCur else inputBuf
    }

    /** A line for a global field; a rejected one changes nothing. */
    method ConsumeGlobal(f: GlobalField, val: string) returns (accepted: bool)
      requires Valid() && mode == Input && confirm.None? && !formActive && inputApply == ToGlobal(f) && val == Line()
      modifies this`cfg
      ensures accepted ==> State().(mode := inputReturn) == Keyboard.FinishLine(net, text, old(State()))
      ensures !accepted ==> cfg == old(cfg) && Reject(State()) == Keyboard.FinishLine(net, text, old(State()))
    {
      hide Sound, ApplyGlobal;
      var r := ApplyGlobal(net, text, cfg, f, val);
      accepted := r.Some?;
      if accepted {
        cfg := r.value;
      }
    }

    /** A line for a form field; a rejected one changes nothing. */
    method ConsumeField(f: FormField, val: string) returns (accepted: bool)
      modifies this`formTarget, this`formIdx
      ensures var r := ApplyField(net, text, cfg.targets, formTargetIdx, old(formTarget), f, val);
              && accepted == r.Some?
              && formTarget == (if r.Some? then r.value else old(formTarget))
              && formIdx == if r.Some? then Clamp(old(formIdx), r.value.probe) else old(formIdx)
    {
      hide ApplyField, FormFields;
      var r := ApplyField(net, text, cfg.targets, formTargetIdx, formTarget, f, val);
      accepted := r.Some?;
      if accepted {
        formTarget := r.value;
        var last := |FormFields(formTarget.probe)| - 1;
        if formIdx >= last {
          formIdx := last;
        }
      }
    }

    /** The same, with the line put on record. */
    method EnterField(f: FormField, val: string) returns (accepted: bool)
      requires Valid() && mode == Input && confirm.None? && formActive && inputApply == ToForm(f) && val == Line()
      modifies this`formTarget, this`formIdx, this`history
      ensures history == Longer(old(history), Entry(f, val))
      ensures if accepted then State().(mode := inputReturn) == Keyboard.FinishLine(net, text, old(State()))
              else State() == old(State()) && Reject(State()) == Keyboard.FinishLine(net, text, old(State()))
    {
      FinishesField(net, text, State(), f);
      hide Sound, Filled, ApplyField, Keyboard.FinishLine, Clamp, Longer;
      accepted := ConsumeField(f, val);
      history := Longer(history, Entry(f, val));
    }

    /** The answer to a pending deletion: a yes removes exactly the target it was
        asked about. */
    method Confirm(val: string)
      requires Valid() && confirm.Some? && val == Line()
      modifies this`confirm, this`mode, this`cfg, this`sel
      ensures Valid() && State() == Answer(old(State()))
      ensures cfg == old(cfg).(targets := cfg.targets)
      ensures if Yes(val) then Dropped(old(cfg).targets, old(confirm).value, cfg.targets) else cfg == old(cfg)
    {
      InputKeepsSound(net, text, State(), Enter);
      assert TargetsGood(net, cfg.targets) && confirm.value < |cfg.targets|;
      RemoveKeepsGood(net, cfg.targets, confirm.value);
      hide Sound, Yes, Dropped, TargetsGood, RemoveAt;
      var idx := confirm.value;
      confirm, mode := None, Nav;
      if Yes(val) {
        cfg := cfg.(targets := RemoveAt(cfg.targets, idx));
        if sel >= TotalLines() {
          sel := TotalLines() - 1;
        }
      }
    }

    /** Enter on the input line. A line for a global field changes that field and no
        target; a line for a form field is entered into the form and does not touch
        the configuration. A rejected line changes nothing. */
    method FinishLine()
      requires Valid() && mode == Input
      modifies this
      ensures Valid() && State() == Keyboard.FinishLine(net, text, old(State()))
      ensures old(confirm).Some? ==>
                && cfg == old(cfg).(targets := cfg.targets)
                && if Yes(old(Line())) then Dropped(old(cfg).targets, old(confirm).value, cfg.targets) else cfg == old(cfg)
      ensures history == if old(formActive) then Longer(old(history), Entry(old(inputApply).field, old(Line())))
                         else old(history)
    {
      InputKeepsSound(net, text, State(), Enter);
      LineConsumer(net, State());
      if confirm.Some? {
        AnswersPending(net, text, State());
      }
      if formActive {
        FieldStep(net, text, State(), history);
      }
      hide Sound, Filled, Yes, Dropped, Keyboard.FinishLine;
      var val := Line();
      if confirm.Some? {
        Confirm(val);
        return;
      }
      var accepted;
      match inputApply {
        case ToGlobal(f) => accepted := ConsumeGlobal(f, val);
        case ToForm(f) => accepted := EnterField(f, val);
      }
      if !accepted {
        inputBuf := "";
        return;
      }
      mode := inputReturn;
    }

    method HandleInput(ev: Key)
      requires Valid() && mode == Input
      modifies this
      ensures Valid() && State() == PressInput(net, text, old(State()), ev)
      ensures ev != Enter || old(confirm).None? ==> cfg.targets == old(cfg).targets
      ensures ev != Enter || old(formActive) ==> cfg == old(cfg)
      ensures ev == Enter && old(confirm).Some? ==>
                && cfg == old(cfg).(targets := cfg.targets)
                && if Yes(old(Line())) then Dropped(old(cfg).targets, old(confirm).value, cfg.targets) else cfg == old(cfg)
      ensures history == if ev == Enter && old(formActive) then Longer(old(history), Entry(old(inputApply).field, old(Line())))
                         else old(history)
    {
      InputKeepsSound(net, text, State(), ev);
      LineConsumer(net, State());
      hide Sound, ApplyField, ApplyGlobal, Entered, ToShown, Yes, Dropped, Clamp;
      match ev {
        case Char(ch) =>
          inputBuf := inputBuf + [ch];
        case Backspace =>
          if |inputBuf| > 0 {
            inputBuf := inputBuf[..|inputBuf| - 1];
          }
        case Enter =>
          FinishLine();
        case Esc =>
          confirm, mode := None, inputReturn;
        case _ =>
      }
    }

    // ---------- all keys ----------

    function TotalLines(): int
      reads this
    {
      |GLOBAL_FIELDS| + |cfg.targets|
    }

    method HandleNav(ev: Key)
      requires Valid() && mode == Nav
      modifies this
      ensures Valid() && State() == PressNav(net, text, old(State()), ev)
      ensures posted == if ev == Char('s') && WellFormed(net, cfg) then old(posted) + [cfg] else old(posted)
      ensures quit <==> old(quit) || ev == Esc || ev == Char('q')
    {
      NavKeepsSound(net, text, State(), ev);
      SoundCursor(net, State());
      hide Sound, WellFormed, Entered, ToShown, EditSelected, AskDelete;
      match ev {
        case Up =>
          if sel > 0 {
            sel := sel - 1;
          }
        case Down =>
          if sel < TotalLines() - 1 {
            sel := sel + 1;
          }
        case Enter =>
          EditSel();
        case Char(ch) =>
          if ch == 'a' {
            AddTarget();
          } else if ch == 'd' {
            DeleteTarget();
          } else if ch == 's' {
            Save();
          } else if ch == 'q' {
            quit := true;
          }
        case Esc =>
          quit := true;
        case _ =>
      }
    }

    /** One key is one step. The targets change only through a confirmed deletion or
        a committed form; an open or cancelled form leaves the configuration as it
        was; only a well-formed configuration is sent. */
    method Handle(ev: Key)
      requires Valid()
      modifies this
      ensures Valid() && State() == Press(net, text, old(State()), ev)
      ensures cfg.targets != old(cfg).targets ==>
                || (old(mode) == Form && ev == Char('s') && WellFormed(net, cfg)
                    && Placed(old(cfg).targets, old(formTargetIdx), old(formTarget), cfg.targets))
                || (old(mode) == Input && ev == Enter && old(confirm).Some?
                    && Dropped(old(cfg).targets, old(confirm).value, cfg.targets))
      ensures old(formActive) && (formActive || ev != Char('s')) ==> cfg == old(history).base
      ensures posted == if old(mode) == Nav && ev == Char('s') && WellFormed(net, cfg) then old(posted) + [cfg]
                        else old(posted)
      ensures quit <==> old(quit) || (old(mode) == Nav && (ev == Esc || ev == Char('q')))
      ensures old(mode) == Form && ev == Char('s') && !net.Legal("") ==>
                (mode == Nav <==> GlobalsOK(net, old(cfg)) && old(Complete(net, text, State(), history)))
    {
      SoundCursor(net, State());
      if Press(net, text, State(), ev).cfg.targets != cfg.targets {
        TargetsChangeOnly(net, text, State(), ev);
      }
      hide Sound, WellFormed, GlobalsOK, Entered, ToShown, Given, Placed, Dropped, PressNav, PressForm, PressInput;
      match mode {
        case Input => HandleInput(ev);
        case Form => HandleForm(ev);
        case Nav => HandleNav(ev);
      }
    }

    /** Any keys at all, one after the other until one quits: the cursors stay in
        range, the targets stay distinct and individually valid, and only well-formed
        configurations were ever sent. */
    method Run(keys: seq<Key>)
      requires Valid()
      modifies this
      ensures Valid() && State() == PressAll(net, text, old(State()), keys)
      ensures TargetsGood(net, cfg.targets)
      ensures forall i :: 0 <= i < |posted| ==> WellFormed(net, posted[i])
    {
      hide Press, TargetsGood, WellFormed, Entered, ToShown;
      var i := 0;
      while i < |keys| && !quit
        invariant 0 <= i <= |keys| && Valid()
        invariant PressAll(net, text, State(), keys[i..]) == PressAll(net, text, old(State()), keys)
      {
        assert keys[i..][1..] == keys[i + 1..];
        Handle(keys[i]);
        i := i + 1;
      }
    }
  }

  lemma SoundCursor(net: Codec, v: View)
    requires Sound(net, v)
    ensures 0 <= v.sel < Rows(v.cfg) && (v.mode.Form? ==> v.form.active) && (v.mode.Nav? ==> !v.form.active && v.confirm.None?)
  {
  }

  lemma AnswersPending(net: Codec, text: Text, v: View)
    requires v.confirm.Some?
    ensures Keyboard.FinishLine(net, text, v) == Answer(v)
  {
  }

  lemma FinishesField(net: Codec, text: Text, v: View, f: FormField)
    requires v.confirm.None? && v.line.apply == ToForm(f)
    ensures Keyboard.FinishLine(net, text, v) ==
              var r := ApplyField(net, text, v.cfg.targets, v.form.targetIdx, v.form.target, f, Value(v.line));
              if r.Some?
              then v.(form := v.form.(target := r.value, idx := Clamp(v.form.idx, r.value.probe)), mode := v.line.back)
              else Reject(v)
  {
    hide ApplyField;
  }

  /** A line for the form, put on record, keeps the form what its history makes it. */
  lemma FieldStep(net: Codec, text: Text, v: View, h: History)
    requires v.confirm.None? && v.line.apply.ToForm? && v.line.apply.field in FormFields(v.form.target.probe)
    requires Filled(net, text, v, h)
    ensures Filled(net, text, Keyboard.FinishLine(net, text, v), Longer(h, Entry(v.line.apply.field, Value(v.line))))
  {
    var e := Entry(v.line.apply.field, Value(v.line));
    EnteredNext(net, text, v.cfg.targets, v.form.targetIdx, h.start, h.entries, e);
    FinishesField(net, text, v, e.field);
    hide ApplyField, Entered, ToShown, FormFields;
  }

  lemma FormCursor(net: Codec, v: View)
    requires Sound(net, v)
    ensures 0 <= v.form.idx < |FormFields(v.form.target.probe)|
  {
  }

  lemma LineConsumer(net: Codec, v: View)
    requires Sound(net, v) && v.mode.Input?
    ensures v.form.active <==> v.line.back.Form?
    ensures v.confirm.Some? ==> !v.form.active
    ensures v.confirm.None? ==>
              if v.form.active then v.line.apply.ToForm? && v.line.apply.field in FormFields(v.form.target.probe)
              else v.line.back.Nav? && v.line.apply.ToGlobal?
  {
  }
}
