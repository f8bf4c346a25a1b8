/** The composition state machine of the input method engine
    (engine/engine.py): a raw buffer of typed Latin keys that is shown,
    transliterated, as preedit text, and committed or discarded on the events
    that end a word. */
module Engine {
  import opened Transliteration

  /** `MAX_COMP_LENGTH`: the largest number of raw characters buffered. */
  const MAX_COMP_LENGTH: nat := 50

  /** The keys the engine tells apart; every other key is known by its key value. */
  datatype Key = BackSpace | ShiftL | ShiftR | CapsLock | Keysym(keyval: int)

  /** A key event: the key, whether it is the release of the key, and whether a
      modifier other than Shift is held. */
  datatype KeyEvent = KeyEvent(key: Key, released: bool, otherModifiers: bool)

  /** What the engine asks of the host: commit text to the application, show
      preedit text (with the cursor position and visibility), or hide it. */
  datatype HostCall =
    | CommitText(text: string)
    | UpdatePreeditText(text: string, cursor: nat, visible: bool)
    | HidePreeditText

  /** The engine's two fields, `preedit_string` and `is_composing`. */
  datatype Session = Session(preedit: string, composing: bool)

  /** The engine's answer to one key event: its new state, the calls it made,
      and whether it consumed the key. */
  datatype Reaction = Reaction(next: Session, calls: seq<HostCall>, handled: bool)

  const Idle := Session("", false)

  /** `self.composer.convert`: the functions below hold for any conversion;
      the engine object uses its composer's. */
  type Converter = string -> string

  /** The buffer holds at most MAX_COMP_LENGTH accepted keys, and a non-empty
      buffer means a word is being composed. */
  predicate WellFormed(s: Session) {
    |s.preedit| <= MAX_COMP_LENGTH
    && (s.preedit != [] ==> s.composing)
    && forall p :: 0 <= p < |s.preedit| ==> IsInputChar(s.preedit[p])
  }

  /** `update_preedit`: while composing, the transliterated buffer with the
      cursor at its end, visible when non-empty; otherwise the preedit is hidden. */
  function Render(c: Converter, s: Session): (h: HostCall)
    ensures h == HidePreeditText <==> !s.composing
    ensures s.composing ==> h.UpdatePreeditText? && h.text == c(s.preedit) && h.cursor == |h.text| && (h.visible <==> h.text != [])
  {
    if s.composing then
      var t := c(s.preedit);
      UpdatePreeditText(t, |t|, |t| > 0)
    else HidePreeditText
  }

  /** `commit_preedit`: while composing, commit the transliterated buffer and
      reset; otherwise nothing. */
  function CommitCalls(c: Converter, s: Session): (cs: seq<HostCall>)
    ensures Commits(cs) == if s.composing then [c(s.preedit)] else []
    ensures s.composing ==> Shown(cs) == HidePreeditText
    ensures !s.composing ==> cs == []
  {
    if s.composing then
      CommitThenHide(c(s.preedit));
      [CommitText(c(s.preedit)), HidePreeditText]
    else []
  }

  /** The state `commit_preedit` leaves: nothing is being composed, and a
      well-formed buffer is then empty. */
  function AfterCommit(s: Session): (n: Session)
    ensures !n.composing
    ensures WellFormed(s) ==> n == Idle
  {
    if s.composing then Idle else s
  }

  /** The key is a character the buffer accepts in state s. */
  predicate Accepts(s: Session, e: KeyEvent) {
    e.key.Keysym? && |s.preedit| < MAX_COMP_LENGTH && ShouldProcessKey(e.key.keyval)
    && !e.otherModifiers
  }

  /** `do_process_key_event`, its tests in the order the source makes them. */
  function ProcessKey(c: Converter, s: Session, e: KeyEvent): (r: Reaction)
    ensures r.handled ==> !e.released && r.calls == [Render(c, r.next)]
    ensures !r.handled ==>
      (r.next == s && r.calls == []) || (r.next == AfterCommit(s) && r.calls == CommitCalls(c, s))
  {
    if e.released then Reaction(s, [], false)
    else if e.key == BackSpace then
      if s.preedit != [] then
        var n := Session(s.preedit[..|s.preedit| - 1], s.composing);
        Reaction(n, [Render(c, n)], true)
      else Reaction(s, [], false)
    else if e.key.ShiftL? || e.key.ShiftR? || e.key.CapsLock? then Reaction(s, [], false)
    else if Accepts(s, e) then
      var n := Session(s.preedit + [e.key.keyval as char], true);
      Reaction(n, [Render(c, n)], true)
    else Reaction(AfterCommit(s), CommitCalls(c, s), false)
  }

  /** The preedit the host shows after the calls of log: the last update or
      hide among them, hidden when there is none. */
  function Shown(log: seq<HostCall>): HostCall
    decreases |log|
  {
    if log == [] then HidePreeditText
    else if log[|log| - 1].CommitText? then Shown(log[..|log| - 1])
    else log[|log| - 1]
  }

  /** The texts committed by the calls of log, in order. */
  function Commits(log: seq<HostCall>): seq<string>
    decreases |log|
  {
    if log == [] then []
    else Commits(log[..|log| - 1]) + (if log[|log| - 1].CommitText? then [log[|log| - 1].text] else [])
  }

  // ---------------------------------------------------------------------------
  // Properties of one key event

  /** Key events keep the buffer bounded, made of accepted keys, and empty
      whenever no word is being composed. */
  lemma ProcessKeyWellFormed(c: Converter, s: Session, e: KeyEvent)
    requires WellFormed(s)
    ensures WellFormed(ProcessKey(c, s, e).next)
  {
    var r := ProcessKey(c, s, e);
    if !e.released && e.key == BackSpace && s.preedit != [] {
      assert forall p :: 0 <= p < |r.next.preedit| ==> r.next.preedit[p] == s.preedit[p];
    } else if !e.released && e.key.Keysym? && Accepts(s, e) {
      var ch := e.key.keyval as char;
      ShouldProcessKeyIsInputChar(ch);
      assert forall p :: 0 <= p < |s.preedit| ==> r.next.preedit[p] == s.preedit[p];
    }
  }

  lemma ShownAppend(log: seq<HostCall>, more: seq<HostCall>)
    requires |more| <= 2
    ensures more == [] ==> Shown(log + more) == Shown(log)
    ensures |more| == 1 && !more[0].CommitText? ==> Shown(log + more) == more[0]
    ensures |more| == 2 && !more[1].CommitText? ==> Shown(log + more) == more[1]
  {
    if more == [] {
      assert log + more == log;
    }
  }

  /** After every key event the host shows the rendering of the new state, if
      it showed the rendering of the old one. */
  lemma ProcessKeyKeepsDisplay(c: Converter, s: Session, e: KeyEvent, log: seq<HostCall>)
    requires Shown(log) == Render(c, s)
    ensures Shown(log + ProcessKey(c, s, e).calls) == Render(c, ProcessKey(c, s, e).next)
  {
    var r := ProcessKey(c, s, e);
    ReactionShapes(c, s, e);
    ShownAppend(log, r.calls);
  }

  /** A key event emits nothing and keeps the state, or shows the rendering of
      the new state, or commits and hides, leaving the engine idle. */
  lemma ReactionShapes(c: Converter, s: Session, e: KeyEvent)
    ensures var r := ProcessKey(c, s, e);
      (r.calls == [] && r.next == s)
      || r.calls == [Render(c, r.next)]
      || (s.composing && r.next == Idle && r.calls == [CommitText(c(s.preedit)), HidePreeditText])
  {
  }

  /** A release event, and Shift or Caps Lock, are never consumed and change nothing. */
  lemma IgnoredKeys(c: Converter, s: Session, e: KeyEvent)
    requires e.released || e.key.ShiftL? || e.key.ShiftR? || e.key.CapsLock?
    ensures ProcessKey(c, s, e) == Reaction(s, [], false)
  {
  }

  /** BackSpace removes exactly the last buffered key and shows the rest; with
      an empty buffer it is not consumed and changes nothing. */
  lemma BackSpaceRemovesLast(c: Converter, s: Session, e: KeyEvent)
    requires !e.released && e.key == BackSpace
    ensures var r := ProcessKey(c, s, e);
      if s.preedit == [] then r == Reaction(s, [], false)
      else
        r.handled && r.next.composing == s.composing
        && r.next.preedit + [s.preedit[|s.preedit| - 1]] == s.preedit
        && r.calls == [Render(c, r.next)]
  {
  }

  /** An accepted key is appended to the buffer, starts composing, shows the
      converted buffer with the cursor at its end, and is consumed. */
  lemma AcceptedKeyAppends(c: Converter, s: Session, e: KeyEvent)
    requires !e.released && Accepts(s, e)
    ensures var r := ProcessKey(c, s, e);
      var t := c(r.next.preedit);
      r.handled && r.next.composing
      && |r.next.preedit| == |s.preedit| + 1
      && r.next.preedit[..|s.preedit|] == s.preedit
      && r.next.preedit[|s.preedit|] as int == e.key.keyval
      && r.calls == [UpdatePreeditText(t, |t|, |t| > 0)]
  {
    var r := ProcessKey(c, s, e);
    assert r.next.preedit[..|s.preedit|] == s.preedit;
  }

  /** Any other key while composing (space, enter, escape, a key beyond the
      buffer's limit, a letter with a non-Shift modifier) commits the converted
      buffer exactly once, ends the word, hides the preedit and is not
      consumed; while not composing it changes nothing. */
  lemma OtherKeyCommits(c: Converter, s: Session, e: KeyEvent)
    requires !e.released && e.key.Keysym? && !Accepts(s, e)
    ensures var r := ProcessKey(c, s, e);
      !r.handled
      && (s.composing ==>
            r.next == Idle && Commits(r.calls) == [c(s.preedit)] && Shown(r.calls) == HidePreeditText)
      && (!s.composing ==> r.next == s && r.calls == [])
  {
    if s.composing {
      CommitThenHide(c(s.preedit));
    }
  }

  lemma CommitThenHide(t: string)
    ensures Commits([CommitText(t), HidePreeditText]) == [t]
    ensures Shown([CommitText(t), HidePreeditText]) == HidePreeditText
  {
    var log := [CommitText(t), HidePreeditText];
    assert log[..1] == [CommitText(t)] && log[..1][..0] == [];
    assert Commits(log[..1]) == Commits([]) + [t];
    assert Commits(log) == Commits(log[..1]);
  }

  /** A letter arriving when the buffer is full commits the buffer instead of
      being added to it. */
  lemma FullBufferCommits(c: Converter, s: Session, e: KeyEvent)
    requires WellFormed(s) && |s.preedit| == MAX_COMP_LENGTH
    requires !e.released && e.key.Keysym? && ShouldProcessKey(e.key.keyval) && !e.otherModifiers
    ensures ProcessKey(c, s, e) == Reaction(Idle, [CommitText(c(s.preedit)), HidePreeditText], false)
  {
  }

  // ---------------------------------------------------------------------------
  // Sequences of key events

  /** The state and the calls after a sequence of key events; handled tells
      whether the last one was consumed. */
  function Run(c: Converter, s: Session, es: seq<KeyEvent>): Reaction
    decreases |es|
  {
    if es == [] then Reaction(s, [], false)
    else
      var first := ProcessKey(c, s, es[0]);
      var rest := Run(c, first.next, es[1..]);
      Reaction(rest.next, first.calls + rest.calls, if es[1..] == [] then first.handled else rest.handled)
  }

  /** One event, then the rest. */
  lemma RunCons(c: Converter, s: Session, es: seq<KeyEvent>)
    requires es != []
    ensures var first := ProcessKey(c, s, es[0]);
      var rest := Run(c, first.next, es[1..]);
      Run(c, s, es).next == rest.next
      && Run(c, s, es).calls == first.calls + rest.calls
      && Run(c, s, es).handled == (if es[1..] == [] then first.handled else rest.handled)
  {
  }

  lemma {:induction false} RunWellFormed(c: Converter, s: Session, es: seq<KeyEvent>)
    requires WellFormed(s)
    ensures WellFormed(Run(c, s, es).next)
    decreases |es|
  {
    if es != [] {
      ProcessKeyWellFormed(c, s, es[0]);
      RunWellFormed(c, ProcessKey(c, s, es[0]).next, es[1..]);
    }
  }

  lemma {:induction false} RunKeepsDisplay(c: Converter, s: Session, es: seq<KeyEvent>, log: seq<HostCall>)
    requires Shown(log) == Render(c, s)
    ensures Shown(log + Run(c, s, es).calls) == Render(c, Run(c, s, es).next)
    decreases |es|
  {
    if es == [] {
      assert log + Run(c, s, es).calls == log;
    } else {
      var first := ProcessKey(c, s, es[0]);
      RunCons(c, s, es);
      ProcessKeyKeepsDisplay(c, s, es[0], log);
      RunKeepsDisplay(c, first.next, es[1..], log + first.calls);
      AppendAssoc(log, first.calls, Run(c, first.next, es[1..]).calls);
    }
  }

  lemma AppendAssoc<T>(a: seq<T>, b: seq<T>, c: seq<T>)
    ensures a + (b + c) == (a + b) + c
  {
  }

  function Press(ch: char): KeyEvent { KeyEvent(Keysym(ch as int), false, false) }

  lemma CommitsOfRenders(log: seq<HostCall>)
    requires forall k :: 0 <= k < |log| ==> !log[k].CommitText?
    ensures Commits(log) == []
    decreases |log|
  {
    if log != [] {
      CommitsOfRenders(log[..|log| - 1]);
    }
  }

  lemma {:induction false} CommitsAppend(a: seq<HostCall>, b: seq<HostCall>)
    ensures Commits(a + b) == Commits(a) + Commits(b)
    decreases |b|
  {
    if b == [] {
      assert a + b == a;
    } else {
      var b', last := b[..|b| - 1], b[|b| - 1];
      var more: seq<string> := if last.CommitText? then [last.text] else [];
      CommitsAppend(a, b');
      var ab := a + b;
      assert ab[..|ab| - 1] == a + b' && ab[|ab| - 1] == last;
      assert Commits(ab) == (Commits(a) + Commits(b')) + more;
      assert Commits(b) == Commits(b') + more;
      AppendAssoc(Commits(a), Commits(b'), more);
    }
  }

  lemma PressAccepted(c: Converter, s: Session, ch: char)
    requires |s.preedit| < MAX_COMP_LENGTH && IsInputChar(ch)
    ensures var n := Session(s.preedit + [ch], true);
      ProcessKey(c, s, Press(ch)) == Reaction(n, [Render(c, n)], true)
  {
    ShouldProcessKeyIsInputChar(ch);
  }

  /** The key presses that type the characters of w, in order. */
  function Presses(w: string): (es: seq<KeyEvent>)
    ensures |es| == |w|
  {
    if w == [] then [] else [Press(w[0])] + Presses(w[1..])
  }

  /** Running two sequences of events one after the other. */
  lemma {:induction false} RunAppend(c: Converter, s: Session, a: seq<KeyEvent>, b: seq<KeyEvent>)
    requires b != []
    ensures var ra := Run(c, s, a);
      var rb := Run(c, ra.next, b);
      Run(c, s, a + b) == Reaction(rb.next, ra.calls + rb.calls, rb.handled)
    decreases |a|
  {
    if a == [] {
      assert a + b == b;
    } else {
      var first := ProcessKey(c, s, a[0]);
      assert (a + b)[0] == a[0] && (a + b)[1..] == a[1..] + b;
      RunAppend(c, first.next, a[1..], b);
      var ra' := Run(c, first.next, a[1..]);
      assert first.calls + (ra'.calls + Run(c, ra'.next, b).calls)
             == (first.calls + ra'.calls) + Run(c, ra'.next, b).calls;
    }
  }

  /** Typing a word of accepted keys that fits in the buffer appends it to the
      buffer, composing, consumes every key and commits nothing. */
  lemma {:induction false} TypeWord(c: Converter, s: Session, w: string)
    requires |s.preedit| + |w| <= MAX_COMP_LENGTH && w != []
    requires forall p :: 0 <= p < |w| ==> IsInputChar(w[p])
    ensures var r := Run(c, s, Presses(w));
      r.next == Session(s.preedit + w, true) && Commits(r.calls) == [] && r.handled
    decreases |w|
  {
    var r, rest := PressThenRun(c, s, w);
    WordTail(s, w);
    if w[1..] != [] {
      TypeWord(c, Session(s.preedit + [w[0]], true), w[1..]);
    }
  }

  /** After the first key of w, the rest of w still fits and is still made of input characters. */
  lemma WordTail(s: Session, w: string)
    requires |s.preedit| + |w| <= MAX_COMP_LENGTH && w != []
    requires forall p :: 0 <= p < |w| ==> IsInputChar(w[p])
    ensures s.preedit + [w[0]] + w[1..] == s.preedit + w
    ensures |s.preedit + [w[0]]| + |w[1..]| <= MAX_COMP_LENGTH
    ensures forall p :: 0 <= p < |w[1..]| ==> IsInputChar(w[1..][p])
  {
    assert [w[0]] + w[1..] == w;
  }

  /** The first accepted key press of w only renders, so typing w commits
      what typing the rest commits and ends where that ends. */
  lemma PressThenRun(c: Converter, s: Session, w: string) returns (r: Reaction, rest: Reaction)
    requires |s.preedit| < MAX_COMP_LENGTH && w != [] && IsInputChar(w[0])
    ensures var n := Session(s.preedit + [w[0]], true);
      r == Run(c, s, Presses(w)) && rest == Run(c, n, Presses(w[1..]))
      && r.next == rest.next && Commits(r.calls) == Commits(rest.calls)
      && r.handled == (w[1..] == [] || rest.handled)
      && (w[1..] == [] ==> rest.next == n && s.preedit + w == n.preedit)
  {
    var n := Session(s.preedit + [w[0]], true);
    PressAccepted(c, s, w[0]);
    var all := Presses(w);
    assert all[0] == Press(w[0]) && all[1..] == Presses(w[1..]);
    RunCons(c, s, all);
    CommitsOfRenders([Render(c, n)]);
    CommitsAppend([Render(c, n)], Run(c, n, all[1..]).calls);
    if w[1..] == [] {
      assert w == [w[0]];
    }
    r, rest := Run(c, s, all), Run(c, n, all[1..]);
  }

  /** Typing a word and then a key the buffer does not take (space, enter,
      escape, a letter with a non-Shift modifier, ...) commits the conversion
      of the word exactly once and lets the last key through. */
  lemma WordThenOtherKey(c: Converter, w: string, e: KeyEvent)
    requires |w| <= MAX_COMP_LENGTH && w != []
    requires forall p :: 0 <= p < |w| ==> IsInputChar(w[p])
    requires !e.released && e.key.Keysym? && !Accepts(Session(w, true), e)
    ensures var r := Run(c, Idle, Presses(w) + [e]);
      r.next == Idle && Commits(r.calls) == [c(w)] && !r.handled
  {
    TypeWord(c, Idle, w);
    assert Idle.preedit + w == w;
    var ra := Run(c, Idle, Presses(w));
    RunAppend(c, Idle, Presses(w), [e]);
    RunSingle(c, Session(w, true), e);
    OtherKeyCommits(c, Session(w, true), e);
    CommitsAppend(ra.calls, ProcessKey(c, Session(w, true), e).calls);
  }

  lemma RunSingle(c: Converter, s: Session, e: KeyEvent)
    ensures Run(c, s, [e]) == ProcessKey(c, s, e)
  {
    assert [e][1..] == [];
    assert ProcessKey(c, s, e).calls + [] == ProcessKey(c, s, e).calls;
  }

  /** Typing "buuz" and then space commits the conversion of "buuz", once. */
  lemma TypeBuuzThenSpace(c: Converter)
    ensures var r := Run(c, Idle, Presses("buuz") + [Press(' ')]);
      r.next == Idle && Commits(r.calls) == [c("buuz")] && !r.handled
  {
    WordThenOtherKey(c, "buuz", Press(' '));
  }

  // ---------------------------------------------------------------------------
  // The engine object (engine/engine.py:28-151)

  class BuuzEngine {
    const composer: Composer
    var preeditString: string
    var isComposing: bool
    /** Every call the engine has made to the host, in order. */
    ghost var calls: seq<HostCall>

    function State(): Session
      reads this
    {
      Session(preeditString, isComposing)
    }

    /** The composer's `convert`, as the engine's functions take it. */
    function Conv(): Converter
      reads composer
      requires NonEmptyPatterns(composer.rules)
    {
      var rules, lengths := composer.rules, composer.ruleLengths;
      text => ConvertText(rules, lengths, text)
    }

    ghost predicate Valid()
      reads this, composer
    {
      NonEmptyPatterns(composer.rules) && WellFormed(State()) && Shown(calls) == Render(Conv(), State())
    }

    constructor ()
      ensures Valid() && State() == Idle && calls == []
      ensures fresh(composer)
      ensures composer.Valid() && forall text :: Conv()(text) == Transliterate(text)
    {
      composer := new Composer();
      preeditString := "";
      isComposing := false;
      calls := [];
    }

    /** `update_preedit`. */
    method UpdatePreedit()
      requires NonEmptyPatterns(composer.rules)
      modifies this
      ensures State() == old(State())
      ensures calls == old(calls) + [Render(Conv(), State())]
    {
      if isComposing {
        var convertedText := composer.Convert(preeditString);
        var length := |convertedText|;
        calls := calls + [UpdatePreeditText(convertedText, length, length > 0)];
      } else {
        calls := calls + [HidePreeditText];
      }
    }

    /** `_reset_state`. */
    method ResetState()
      requires NonEmptyPatterns(composer.rules)
      modifies this
      ensures State() == Idle
      ensures calls == old(calls) + [HidePreeditText]
    {
      isComposing := false;
      preeditString := "";
      UpdatePreedit();
    }

    /** `commit_preedit`. */
    method CommitPreedit()
      requires NonEmptyPatterns(composer.rules)
      modifies this
      ensures State() == AfterCommit(old(State()))
      ensures calls == old(calls) + CommitCalls(Conv(), old(State()))
    {
      if isComposing {
        var convertedText := composer.Convert(preeditString);
        calls := calls + [CommitText(convertedText)];
        ResetState();
      }
    }

    /** `do_reset`: discards the buffer without committing it. */
    method Reset()
      requires Valid()
      modifies this
      ensures Valid() && State() == Idle
      ensures calls == old(calls) + [HidePreeditText]
    {
      ResetState();
      ShownAppend(old(calls), [HidePreeditText]);
    }

    /** `do_focus_out`: commits the buffer. */
    method FocusOut()
      requires Valid()
      modifies this
      ensures Valid() && State() == AfterCommit(old(State()))
      ensures calls == old(calls) + CommitCalls(Conv(), old(State()))
    {
      CommitPreedit();
      ShownAppend(old(calls), CommitCalls(Conv(), old(State())));
    }

    /** `do_process_key_event`. */
    method ProcessKeyEvent(e: KeyEvent) returns (handled: bool)
      requires Valid()
      modifies this
      ensures Valid()
      ensures var r := ProcessKey(Conv(), old(State()), e);
        State() == r.next && calls == old(calls) + r.calls && handled == r.handled
    {
      ghost var s0, log0 := State(), calls;
      ProcessKeyWellFormed(Conv(), s0, e);
      ProcessKeyKeepsDisplay(Conv(), s0, e, log0);
      if e.released {
        handled := false;
      } else if e.key == BackSpace {
        if preeditString != "" {
          preeditString := preeditString[..|preeditString| - 1];
          UpdatePreedit();
          handled := true;
        } else {
          handled := false;
        }
      } else if e.key.ShiftL? || e.key.ShiftR? || e.key.CapsLock? {
        handled := false;
      } else if |preeditString| < MAX_COMP_LENGTH && ShouldProcessKey(e.key.keyval) && !e.otherModifiers {
        if !isComposing {
          isComposing := true;
        }
        var ch := e.key.keyval as char;
        preeditString := preeditString + [ch];
        UpdatePreedit();
        handled := true;
      } else {
        if isComposing {
          CommitPreedit();
        }
        handled := false;
      }
    }
  }
}
