/**
 * The main loop: it waits for the next terminal event; on a key press it
 * resolves the key against the current octave offset, plays and draws the
 * note when its column passes the guard, then lets the control keys adjust
 * the session parameters, and leaves the loop on Esc. A failed poll panics.
 *
 * The events are a parameter (the input the user will type), and the loop's
 * calls to the player and to the highlight are recorded as a trace of
 * actions; `Catalog.Play` and `Highlight.Draw` model what those calls do.
 */
module Session {
  import opened Notes
  import opened Controller
  import opened Palette
  import Wrappers

  datatype Event = KeyEvent(key: Key) | ResizeEvent(w: int, h: int) | MouseEvent(x: int, y: int) | NoEvent

  /** The outcome of one poll: an event, or the terminal library's error. */
  datatype Polled = Ok(event: Event) | Err(message: string)

  /** A call the loop makes for a played note. */
  datatype Action =
    | PlayNote(sound: string, sequence: I16, duration: U32)
    | DrawNote(position: I16, white: bool, color: string, markDuration: U32)

  /** How a run ends: Esc left the loop, a panic ended the program, or the loop is waiting for more input. */
  datatype Ending = Exited | Panicked | Waiting

  datatype Run = Run(trace: seq<Action>, params: Params, ending: Ending)

  /** The fixed inputs of a run: the resolver, the colour name and the mark duration. */
  datatype Config = Config(resolve: Resolver, color: string, markDuration: U32)

  /** One event's effect: its actions, and either the next parameters or the end of the run. */
  datatype StepResult = Continue(acts: seq<Action>, next: Params) | Stop(acts: seq<Action>, ending: Ending)

  /**
   * The actions for a resolved note: none when its column fails the guard;
   * otherwise play with the current duration, then draw, which panics on an
   * unknown colour name after the note has started playing.
   */
  function Respond(cfg: Config, p: Params, note: Note): (r: (seq<Action>, bool))
    ensures r.0 == [] <==> !Playable(note)
    ensures r.0 != [] ==> r.0[0] == PlayNote(note.sound, note.sequence, p.noteDuration)
    ensures r.1 <==> Playable(note) && cfg.color !in ColorNames
    ensures |r.0| <= 2 && (r.1 ==> |r.0| == 1)
    ensures |r.0| == 2 <==> Playable(note) && cfg.color in ColorNames
    ensures |r.0| == 2 ==> r.0[1] == DrawNote(note.position, note.white, cfg.color, cfg.markDuration)
  {
    if !Playable(note) then ([], false)
    else if cfg.color !in ColorNames then ([PlayNote(note.sound, note.sequence, p.noteDuration)], true)
    else
      ([PlayNote(note.sound, note.sequence, p.noteDuration),
        DrawNote(note.position, note.white, cfg.color, cfg.markDuration)], false)
  }

  /** One pass of the loop on one polled event. */
  function Step(cfg: Config, p: Params, polled: Polled): (r: StepResult)
    ensures polled.Err? ==> r == Stop([], Panicked)
    ensures polled.Ok? && !polled.event.KeyEvent? ==> r == Continue([], p)
    ensures polled.Ok? && polled.event.KeyEvent? ==> r.acts == Respond(cfg, p, cfg.resolve(polled.event.key, p.rawSequence)).0
    ensures r.Stop? ==> r.ending != Waiting
    ensures r.Stop? && r.ending == Exited ==> polled == Ok(KeyEvent(Esc))
    ensures r.Continue? && polled.Ok? && polled.event.KeyEvent? ==> r.next == Adjust(p, polled.event.key)
    ensures r.Continue? && InBounds(p) ==> InBounds(r.next)
    ensures polled.Ok? && polled.event.KeyEvent? ==>
      var panics := Respond(cfg, p, cfg.resolve(polled.event.key, p.rawSequence)).1;
      && (r.Stop? <==> polled.event.key == Esc || panics)
      && (r.Stop? ==> (r.ending == Panicked <==> panics))
  {
    match polled
    case Err(_) => Stop([], Panicked)
    case Ok(KeyEvent(key)) =>
      var (acts, panicked) := Respond(cfg, p, cfg.resolve(key, p.rawSequence));
      if panicked then Stop(acts, Panicked)
      else if key == Esc then Stop(acts, Exited)
      else Continue(acts, Adjust(p, key))
    case Ok(_) => Continue([], p)
  }

  /** The run on a sequence of polled events from parameters `p`. */
  function Replay(cfg: Config, p: Params, events: seq<Polled>): Run
    decreases |events|
  {
    if events == [] then Run([], p, Waiting)
    else
      match Step(cfg, p, events[0])
      case Stop(acts, ending) => Run(acts, p, ending)
      case Continue(acts, next) =>
        var rest := Replay(cfg, next, events[1..]);
        Run(acts + rest.trace, rest.params, rest.ending)
  }

  /**
   * The body of `main`'s loop for one polled event: a key press is handled
   * by `HandleKey`, a failed poll panics, any other event changes nothing;
   * `stop` says whether and how the loop ends here.
   */
  method HandleEvent(cfg: Config, rawSequence: I16, noteDuration: U32, pe: Polled)
    returns (acts: seq<Action>, q: I16, d: U32, stop: Wrappers.Option<Ending>)
    ensures Step(cfg, Params(rawSequence, noteDuration), pe)
      == if stop.Some? then Stop(acts, stop.value) else Continue(acts, Params(q, d))
  {
    if pe.Err? {
      acts, q, d, stop := [], rawSequence, noteDuration, Wrappers.Some(Panicked);
    } else if pe.event.KeyEvent? {
      acts, q, d, stop := HandleKey(cfg, rawSequence, noteDuration, pe.event.key);
    } else {
      acts, q, d, stop := [], rawSequence, noteDuration, Wrappers.None;
    }
  }

  /**
   * One key press: resolve the key against the current offset, play and draw
   * the note when its column passes the guard, then leave on Esc or apply the
   * control keys.
   */
  method HandleKey(cfg: Config, rawSequence: I16, noteDuration: U32, key: Key)
    returns (acts: seq<Action>, q: I16, d: U32, stop: Wrappers.Option<Ending>)
    ensures Step(cfg, Params(rawSequence, noteDuration), Ok(KeyEvent(key)))
      == if stop.Some? then Stop(acts, stop.value) else Continue(acts, Params(q, d))
  {
    acts, q, d, stop := [], rawSequence, noteDuration, Wrappers.None;
    var note := cfg.resolve(key, rawSequence);
    ghost var p := Params(rawSequence, noteDuration);
    ghost var response := Respond(cfg, p, note);
    assert Step(cfg, p, Ok(KeyEvent(key))) ==
      if response.1 then Stop(response.0, Panicked)
      else if key == Esc then Stop(response.0, Exited)
      else Continue(response.0, Adjust(p, key));
    if note.position > 0 && note.position < 155 {
      var play := PlayNote(note.sound, note.sequence, noteDuration);
      if ColorIndex(cfg.color).None? {
        acts, stop := [play], Wrappers.Some(Panicked);
        return;
      }
      acts := [play, DrawNote(note.position, note.white, cfg.color, cfg.markDuration)];
    }
    assert acts == response.0 && !response.1;
    if key == Esc {
      stop := Wrappers.Some(Exited);
      return;
    }
    q, d := Controller.HandleControlKey(rawSequence, noteDuration, key);
  }

  /** The run on the events from index i on takes one step on event i, then goes on from index i + 1. */
  lemma ReplayUnfold(cfg: Config, p: Params, events: seq<Polled>, i: nat)
    requires i < |events|
    ensures Replay(cfg, p, events[i..]) ==
      match Step(cfg, p, events[i])
      case Stop(acts, ending) => Run(acts, p, ending)
      case Continue(acts, next) =>
        var rest := Replay(cfg, next, events[i + 1..]);
        Run(acts + rest.trace, rest.params, rest.ending)
  {
    assert events[i..][0] == events[i];
    assert events[i..][1..] == events[i + 1..];
  }

  /**
   * The loop of `main`, over the events the user provides. It returns the
   * calls made, the final octave offset and note duration, and how the run
   * ended; all of them are those of `Replay`.
   */
  method MainLoop(cfg: Config, start: Params, events: seq<Polled>)
    returns (trace: seq<Action>, rawSequence: I16, noteDuration: U32, ending: Ending)
    ensures Run(trace, Params(rawSequence, noteDuration), ending) == Replay(cfg, start, events)
  {
    rawSequence, noteDuration := start.rawSequence, start.noteDuration;
    trace, ending := [], Waiting;
    var i := 0;
    while i < |events|
      invariant 0 <= i <= |events|
      invariant var r := Replay(cfg, Params(rawSequence, noteDuration), events[i..]);
        Replay(cfg, start, events) == Run(trace + r.trace, r.params, r.ending)
    {
      ReplayUnfold(cfg, Params(rawSequence, noteDuration), events, i);
      var acts, q, d, stop := HandleEvent(cfg, rawSequence, noteDuration, events[i]);
      ghost var before := trace;
      trace := trace + acts;
      if stop.Some? {
        ending := stop.value;
        return;
      }
      ghost var rest := Replay(cfg, Params(q, d), events[i + 1..]);
      assert (before + acts) + rest.trace == before + (acts + rest.trace);
      rawSequence, noteDuration := q, d;
      i := i + 1;
    }
  }

  /**
   * One key press with a known colour: the note is resolved against the
   * current offset; it is played and drawn exactly when its column passes the
   * guard, with the duration in force before the press; only Esc ends the
   * loop, and otherwise the parameters move as the control keys say, so the
   * change shows only from the next press on.
   */
  lemma KeyPress(cfg: Config, p: Params, key: Key)
    requires cfg.color in ColorNames
    ensures var note := cfg.resolve(key, p.rawSequence);
      var st := Step(cfg, p, Ok(KeyEvent(key)));
      && (st.acts != [] <==> Playable(note))
      && (Playable(note) ==> st.acts == [PlayNote(note.sound, note.sequence, p.noteDuration), DrawNote(note.position, note.white, cfg.color, cfg.markDuration)])
      && (st.Stop? <==> key == Esc)
      && (st.Stop? ==> st.ending == Exited)
      && (st.Continue? ==> st.next == Adjust(p, key))
  {
  }

  /** Every run that starts inside the bounds stays inside them. */
  lemma {:induction false} ReplayKeepsBounds(cfg: Config, p: Params, events: seq<Polled>)
    requires InBounds(p)
    ensures InBounds(Replay(cfg, p, events).params)
    decreases |events|
  {
    if events != [] {
      match Step(cfg, p, events[0])
      case Stop(_, _) =>
      case Continue(_, next) =>
        assert InBounds(next);
        ReplayKeepsBounds(cfg, next, events[1..]);
    }
  }

  /** The calls alternate play, draw, play, draw, ..., starting with a play; every drawn column passes the guard; only a panic leaves a play without its draw. */
  predicate Alternating(t: seq<Action>)
  {
    && (forall k :: 0 <= k < |t| ==> (t[k].PlayNote? <==> k % 2 == 0))
    && (forall k :: 0 <= k < |t| && t[k].DrawNote? ==> 0 < t[k].position < 155)
  }

  /** The actions of one event alternate, and come in complete pairs unless the event panicked. */
  lemma StepAlternates(cfg: Config, p: Params, pe: Polled)
    ensures Alternating(Step(cfg, p, pe).acts)
    ensures Step(cfg, p, pe).Continue? || Step(cfg, p, pe).ending != Panicked ==> |Step(cfg, p, pe).acts| % 2 == 0
  {
  }

  lemma AlternatingConcat(a: seq<Action>, b: seq<Action>)
    requires Alternating(a) && |a| % 2 == 0 && Alternating(b)
    ensures Alternating(a + b)
    ensures |b| % 2 == 0 ==> |a + b| % 2 == 0
  {
    var t, m := a + b, |a| / 2;
    assert |a| == 2 * m;
    if |b| % 2 == 0 {
      var n := |b| / 2;
      assert |t| == 2 * (m + n);
    }
    forall k | 0 <= k < |t|
      ensures t[k].PlayNote? <==> k % 2 == 0
      ensures t[k].DrawNote? ==> 0 < t[k].position < 155
    {
      if k >= |a| {
        var j := k - 2 * m;
        assert t[k] == b[j];
        assert k % 2 == j % 2;
      }
    }
  }

  lemma {:induction false} ReplayAlternates(cfg: Config, p: Params, events: seq<Polled>)
    ensures Alternating(Replay(cfg, p, events).trace)
    ensures Replay(cfg, p, events).ending != Panicked ==> |Replay(cfg, p, events).trace| % 2 == 0
    decreases |events|
  {
    if events != [] {
      StepAlternates(cfg, p, events[0]);
      match Step(cfg, p, events[0])
      case Stop(_, _) =>
      case Continue(acts, next) =>
        var rest := Replay(cfg, next, events[1..]);
        ReplayAlternates(cfg, next, events[1..]);
        AlternatingConcat(acts, rest.trace);
        assert Replay(cfg, p, events).trace == acts + rest.trace;
    }
  }

  /** Once a run has ended, by Esc or by a panic, later events are never read. */
  lemma {:induction false} ReplayStopsReading(cfg: Config, p: Params, events: seq<Polled>, more: seq<Polled>)
    requires Replay(cfg, p, events).ending != Waiting
    ensures Replay(cfg, p, events + more) == Replay(cfg, p, events)
    decreases |events|
  {
    assert (events + more)[0] == events[0];
    match Step(cfg, p, events[0])
    case Stop(_, _) =>
    case Continue(_, next) =>
      assert (events + more)[1..] == events[1..] + more;
      ReplayStopsReading(cfg, next, events[1..], more);
  }

  /**
   * A run leaves the loop only on an Esc press, and panics only on a failed
   * poll or, at a played note, on an unknown colour name; a run that meets
   * neither is still waiting for input.
   */
  lemma {:induction false} ReplayEnding(cfg: Config, p: Params, events: seq<Polled>)
    ensures Replay(cfg, p, events).ending == Exited ==> Ok(KeyEvent(Esc)) in events
    ensures Replay(cfg, p, events).ending == Panicked ==>
      cfg.color !in ColorNames || exists k :: 0 <= k < |events| && events[k].Err?
    decreases |events|
  {
    if events != [] {
      match Step(cfg, p, events[0])
      case Stop(_, _) =>
        assert events[0] in events;
      case Continue(_, next) =>
        ReplayEnding(cfg, next, events[1..]);
        var r := Replay(cfg, next, events[1..]);
        if r.ending == Exited {
          assert Ok(KeyEvent(Esc)) in events[1..];
        }
        if r.ending == Panicked && cfg.color in ColorNames {
          var k :| 0 <= k < |events[1..]| && events[1..][k].Err?;
          assert events[k + 1].Err?;
        }
    }
  }

  /** With an unknown colour name nothing is ever drawn: the first played note panics right after it starts to play. */
  lemma {:induction false} UnknownColorPanicsAtFirstNote(cfg: Config, p: Params, events: seq<Polled>)
    requires cfg.color !in ColorNames
    ensures var r := Replay(cfg, p, events);
      && |r.trace| <= 1
      && (|r.trace| == 1 ==> r.trace[0].PlayNote? && r.ending == Panicked)
    decreases |events|
  {
    if events != [] {
      match Step(cfg, p, events[0])
      case Stop(_, _) =>
      case Continue(acts, next) =>
        UnknownColorPanicsAtFirstNote(cfg, next, events[1..]);
    }
  }
}
