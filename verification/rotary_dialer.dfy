/**
 * The dialing session of src/components/RotaryDialer.tsx: the list of dialed
 * glyphs, the processing flag, the response and the instruction flag, changed
 * by `handleDial`, `processDialing` with its deferred completion, the
 * auto-process effect and `handleReset`; and the session together with the
 * dial it renders, whose lock keeps every session at five glyphs or fewer.
 *
 * The 2000 ms timer of `processDialing` is a list of pending completions, each
 * holding the glyph list its closure captured; `Complete` is the timer firing.
 * Both random draws are parameters: `draw` for `Math.random() > 0.7` and
 * `pick` for the response index.
 */
module Dialer {
  import opened Wrappers
  import opened Responses
  import opened Dial

  /** The dial locks, and the session is processed, at this many glyphs. */
  const MAX_ENTRIES: nat := 5
  /** The fewest glyphs after which a session may be processed early. */
  const EARLY_MIN: nat := 3

  /** The early-exit test of `handleDial`, given the length after the append. */
  predicate EarlyExit(newLength: nat, draw: bool) {
    newLength >= EARLY_MIN && draw
  }

  /** Below three glyphs no draw starts processing; from three on, the draw decides. */
  lemma EarlyExitNeedsThree(newLength: nat, draw: bool)
    ensures newLength < EARLY_MIN ==> !EarlyExit(newLength, draw)
    ensures newLength >= EARLY_MIN ==> (EarlyExit(newLength, draw) <==> draw)
  {
  }

  /**
   * The early answer evaluates the list without the glyph just dialed, and
   * that can change the category: smile and sparkles answer positive,
   * although smile, sparkles and pensive together are neutral.
   */
  lemma EarlyAnswerCanMissLastGlyph()
    ensures Category([EMOJIS[0].glyph, EMOJIS[5].glyph]) == Positive
    ensures Category([EMOJIS[0].glyph, EMOJIS[5].glyph, EMOJIS[1].glyph]) == Neutral
  {
    CatalogGlyphHits(0, Positive);
    CatalogGlyphHits(5, Positive);
    CatalogGlyphHits(1, Positive);
    CountOfPair(EMOJIS[0].glyph, EMOJIS[5].glyph, Positive);
    CountOfTriple(EMOJIS[0].glyph, EMOJIS[5].glyph, EMOJIS[1].glyph, Positive);
    CatalogGlyphHits(0, Negative);
    CatalogGlyphHits(5, Negative);
    CatalogGlyphHits(1, Negative);
    CountOfPair(EMOJIS[0].glyph, EMOJIS[5].glyph, Negative);
    CountOfTriple(EMOJIS[0].glyph, EMOJIS[5].glyph, EMOJIS[1].glyph, Negative);
    CatalogGlyphHits(0, Chaotic);
    CatalogGlyphHits(5, Chaotic);
    CatalogGlyphHits(1, Chaotic);
    CountOfPair(EMOJIS[0].glyph, EMOJIS[5].glyph, Chaotic);
    CountOfTriple(EMOJIS[0].glyph, EMOJIS[5].glyph, EMOJIS[1].glyph, Chaotic);
  }

  class RotaryDialer {
    var dialedEmojis: seq<string>
    var isProcessing: bool
    var response: Option<string>
    var showInstruction: bool
    /** Scheduled completions, oldest first: the glyph list each one will evaluate. */
    var timers: seq<seq<string>>
    /** The dial this component renders. */
    var dial: RotaryDial

    constructor ()
      ensures dialedEmojis == [] && !isProcessing && response == None && showInstruction && timers == []
      ensures fresh(dial) && dial.Valid() && dial.stroke == Idle
      ensures Inv()
    {
      dialedEmojis := [];
      isProcessing := false;
      response := None;
      showInstruction := true;
      timers := [];
      dial := new RotaryDial();
    }

    /** The `isLocked` property handed to the dial. */
    predicate IsLocked()
      reads this
    {
      isProcessing || |dialedEmojis| >= MAX_ENTRIES
    }

    /** `processDialing`: lock, and schedule a completion over the list the closure captured. */
    method ProcessDialing(captured: seq<string>)
      modifies this
      ensures isProcessing && timers == old(timers) + [captured]
      ensures dialedEmojis == old(dialedEmojis) && response == old(response)
      ensures showInstruction == old(showInstruction) && dial == old(dial)
    {
      isProcessing := true;
      timers := timers + [captured];
    }

    /**
     * `handleDial`: hide the instruction, append the glyph, and on a
     * successful draw from three glyphs on start processing. The closure of
     * that `processDialing` holds the list as it was before the append.
     */
    method HandleDial(emoji: string, draw: bool)
      modifies this
      ensures dialedEmojis == old(dialedEmojis) + [emoji]
      ensures !showInstruction
      ensures response == old(response) && dial == old(dial)
      ensures EarlyExit(|dialedEmojis|, draw) ==> isProcessing && timers == old(timers) + [old(dialedEmojis)]
      ensures !EarlyExit(|dialedEmojis|, draw) ==> isProcessing == old(isProcessing) && timers == old(timers)
    {
      if showInstruction {
        showInstruction := false;
      }
      var captured := dialedEmojis;
      var newEmojis := dialedEmojis + [emoji];
      dialedEmojis := newEmojis;
      if |newEmojis| >= EARLY_MIN && draw {
        ProcessDialing(captured);
      }
    }

    /** The effect run after the glyph list changes: process a full list nobody is processing or has answered. */
    method AutoProcess() returns (fired: bool)
      modifies this
      ensures fired <==> |old(dialedEmojis)| >= MAX_ENTRIES && !old(isProcessing) && old(response) == None
      ensures fired ==> isProcessing && timers == old(timers) + [old(dialedEmojis)]
      ensures !fired ==> isProcessing == old(isProcessing) && timers == old(timers)
      ensures dialedEmojis == old(dialedEmojis) && response == old(response)
      ensures showInstruction == old(showInstruction) && dial == old(dial)
    {
      fired := |dialedEmojis| >= MAX_ENTRIES && !isProcessing && response == None;
      if fired {
        ProcessDialing(dialedEmojis);
      }
    }

    /**
     * The oldest scheduled completion fires: it answers its captured list and
     * unlocks, whatever happened to the session since it was scheduled.
     */
    method Complete(pick: nat)
      requires timers != [] && PickFits(timers[0], pick)
      modifies this
      ensures response == Some(Respond(old(timers)[0], pick))
      ensures !isProcessing && timers == old(timers)[1..]
      ensures dialedEmojis == old(dialedEmojis) && showInstruction == old(showInstruction) && dial == old(dial)
    {
      var captured := timers[0];
      timers := timers[1..];
      var result := GetResponse(captured, pick);
      response := Some(result);
      isProcessing := false;
    }

    /** `handleReset`: clear the answer and the glyphs and unlock; scheduled completions stay scheduled. */
    method HandleReset()
      modifies this
      ensures response == None && dialedEmojis == [] && !isProcessing
      ensures timers == old(timers) && showInstruction == old(showInstruction) && dial == old(dial)
    {
      response := None;
      dialedEmojis := [];
      isProcessing := false;
    }

    /**
     * What holds of the session and its dial between any two events of the
     * widget: the dial appears only while there is no response and the reset
     * button only while there is one.
     */
    ghost predicate Inv()
      reads this, dial
    {
      && dial.Valid()
      && |dialedEmojis| <= MAX_ENTRIES
      && (dialedEmojis != [] ==> !showInstruction)
      && |timers| <= 1
      && (isProcessing <==> timers != [])
      && (response.Some? ==> !isProcessing)
      && (timers != [] ==>
            2 <= |timers[0]| <= |dialedEmojis| <= |timers[0]| + 1 &&
            timers[0] == dialedEmojis[..|timers[0]|])
      && (|dialedEmojis| == MAX_ENTRIES ==> isProcessing || response.Some?)
      && (dial.stroke.Turning? ==> !IsLocked() && response == None)
    }

    /** A click on slot `index` of the rendered dial, passed the session's lock. */
    method ClickSlot(index: nat) returns (accepted: bool)
      requires Inv() && index < |EMOJIS| && response == None
      modifies dial
      ensures Inv()
      ensures accepted <==> !IsLocked() && !old(dial.isRotating)
      ensures accepted ==> dial.stroke == Turning(EMOJIS[index].glyph) && dial.rotate == RotationNeeded(index)
      ensures !accepted ==> dial.stroke == old(dial.stroke) && dial.isRotating == old(dial.isRotating)
      ensures !accepted ==> dial.rotate == old(dial.rotate)
    {
      accepted := dial.HandleSlotClick(index, IsLocked());
    }

    /** The stroke reaches the stop: the dial emits its glyph to `handleDial`, then the effect runs. */
    method StrokeReachesStop(draw: bool)
      requires Inv() && dial.stroke.Turning?
      modifies this, dial
      ensures Inv()
      ensures dial == old(dial) && dial.stroke == Returning && dial.rotate == old(dial.rotate)
      ensures dialedEmojis == old(dialedEmojis) + [old(dial.stroke).glyph]
      ensures response == None && !showInstruction
      ensures EarlyExit(|dialedEmojis|, draw) ==> timers == [old(dialedEmojis)]
      ensures !EarlyExit(|dialedEmojis|, draw) && |dialedEmojis| == MAX_ENTRIES ==> timers == [dialedEmojis]
      ensures !EarlyExit(|dialedEmojis|, draw) && |dialedEmojis| < MAX_ENTRIES ==> timers == []
    {
      var glyph := dial.ReachStop();
      HandleDial(glyph, draw);
      var _ := AutoProcess();
    }

    /** The dial finishes springing back. */
    method StrokeReturns()
      requires Inv() && dial.stroke.Returning?
      modifies dial
      ensures Inv()
      ensures dial.stroke == Idle && !dial.isRotating
    {
      dial.SpringBack();
    }

    /** The settle timer fires; in the widget its captured list always has at least two glyphs. */
    method TimerFires(pick: nat)
      requires Inv() && timers != [] && pick < |Options(Category(timers[0]))|
      modifies this
      ensures Inv()
      ensures response == Some(Respond(old(timers)[0], pick)) && response != Some(SILENT)
      ensures timers == [] && !isProcessing
      ensures dialedEmojis == old(dialedEmojis) && showInstruction == old(showInstruction) && dial == old(dial)
    {
      Complete(pick);
    }

    /**
     * The reset button of the response card: `handleReset`, after which the
     * dial is mounted afresh. Through the widget no completion is pending at
     * that moment, so none can overwrite the fresh session.
     */
    method ResetPressed()
      requires Inv() && response.Some?
      modifies this
      ensures Inv()
      ensures old(timers) == [] && timers == []
      ensures response == None && dialedEmojis == [] && !isProcessing && showInstruction == old(showInstruction)
      ensures fresh(dial) && dial.stroke == Idle
    {
      HandleReset();
      dial := new RotaryDial();
    }
  }

  /**
   * `handleReset` does not cancel a completion already scheduled: called on
   * its own while one is pending, the completion still writes a response
   * into the emptied session.
   */
  method ResetDoesNotCancelCompletion(a: string, b: string, c: string)
    returns (response: Option<string>, dialed: seq<string>, processing: bool)
    ensures response == Some(Respond([a, b], 0)) && response != None
    ensures dialed == [] && !processing
  {
    var d := new RotaryDialer();
    d.HandleDial(a, false);
    d.HandleDial(b, false);
    assert d.dialedEmojis == [a, b] && d.timers == [];
    d.HandleDial(c, true);
    assert d.timers == [[a, b]];
    d.HandleReset();
    assert d.response == None && d.dialedEmojis == [];
    d.Complete(0);
    response, dialed, processing := d.response, d.dialedEmojis, d.isProcessing;
  }

}
