/**
 * `TypingEffect` of script.js: a typewriter that types one of five phrases
 * character by character, pauses, deletes it again and moves on to the next
 * phrase. Each call of `type()` changes the three cursor variables and the
 * element's text and asks to be called again after a delay; the delay is
 * returned instead of being handed to `setTimeout`.
 */
module Typing {

  /** The phrases `init()` installs. */
  const TEXTS: seq<string> := ["Full-Stack Developer", "UI/UX Designer", "Problem Solver", "Tech Enthusiast", "Freelancer"]

  const TYPE_SPEED: nat := 100
  const DELETE_SPEED: nat := 50
  const PAUSE_TIME: nat := 2000
  /** The pause before the next phrase starts, written as a literal in `type()`. */
  const NEXT_TEXT_DELAY: nat := 500

  /** The three variables `type()` updates. */
  datatype Cursor = Cursor(textIndex: int, charIndex: int, deleting: bool)

  /** What one call of `type()` produces: the new cursor, the element's text and the delay. */
  datatype Tick = Tick(next: Cursor, shown: string, delay: nat)

  /** Every phrase has at least one character (an empty one would make typing run past its end). */
  predicate TextsOk(texts: seq<string>)
  {
    |texts| > 0 && forall i :: 0 <= i < |texts| ==> |texts[i]| > 0
  }

  /**
   * The states `type()` can be called in: while typing, the phrase is not yet
   * complete; while deleting, at least one character is left.
   */
  predicate Consistent(texts: seq<string>, c: Cursor)
  {
    TextsOk(texts) && 0 <= c.textIndex < |texts| &&
    if c.deleting then 0 < c.charIndex <= |texts[c.textIndex]| else 0 <= c.charIndex < |texts[c.textIndex]|
  }

  /** JavaScript's `s.substring(0, end)`: the end is clamped to `0..|s|`. */
  function Substring(s: string, end: int): (r: string)
    ensures r <= s
    ensures |r| == if end < 0 then 0 else if end > |s| then |s| else end
  {
    if end < 0 then [] else if end > |s| then s else s[..end]
  }

  /** The reference description of one call of `type()`. */
  function Advance(texts: seq<string>, c: Cursor): (t: Tick)
    requires Consistent(texts, c)
    ensures Consistent(texts, t.next)
  {
    var current := texts[c.textIndex];
    var charIndex := if c.deleting then c.charIndex - 1 else c.charIndex + 1;
    var shown := Substring(current, charIndex);
    if !c.deleting && charIndex == |current| then
      Tick(Cursor(c.textIndex, charIndex, true), shown, PAUSE_TIME)
    else if c.deleting && charIndex == 0 then
      Tick(Cursor((c.textIndex + 1) % |texts|, charIndex, false), shown, NEXT_TEXT_DELAY)
    else
      Tick(Cursor(c.textIndex, charIndex, c.deleting), shown, if c.deleting then DELETE_SPEED else TYPE_SPEED)
  }

  /**
   * One call of `type()`: typing adds a character and, on completing the
   * phrase, turns to deleting after the long pause; deleting removes a
   * character and, on emptying the element, moves to the next phrase. The
   * element always shows the first `charIndex` characters of the phrase.
   */
  lemma AdvanceMeaning(texts: seq<string>, c: Cursor)
    requires Consistent(texts, c)
    ensures var t := Advance(texts, c);
      t.shown == texts[t.next.textIndex][..t.next.charIndex]
    ensures var t := Advance(texts, c);
      !c.deleting ==>
      t.next.textIndex == c.textIndex && t.next.charIndex == c.charIndex + 1 &&
      (t.next.deleting <==> t.next.charIndex == |texts[c.textIndex]|) &&
      t.delay == (if t.next.deleting then PAUSE_TIME else TYPE_SPEED)
    ensures var t := Advance(texts, c);
      c.deleting ==>
      t.next.charIndex == c.charIndex - 1 &&
      if c.charIndex == 1 then
        !t.next.deleting && t.next.textIndex == (c.textIndex + 1) % |texts| && t.delay == NEXT_TEXT_DELAY
      else
        t.next.deleting && t.next.textIndex == c.textIndex && t.delay == DELETE_SPEED
  {
  }

  /** The cursor after `k` calls of `type()`, and the sum of the delays they asked for. */
  function Run(texts: seq<string>, c: Cursor, k: nat): (r: (Cursor, nat))
    requires Consistent(texts, c)
    ensures Consistent(texts, r.0)
    decreases k
  {
    if k == 0 then (c, 0)
    else
      var t := Advance(texts, c);
      var rest := Run(texts, t.next, k - 1);
      (rest.0, t.delay + rest.1)
  }

  /**
   * Typing from character `j` completes the phrase after `|phrase| - j` calls,
   * the last of which asks for the long pause; the `m` calls after those run
   * from the completed phrase in deleting mode.
   */
  lemma {:induction false} TypingPhase(texts: seq<string>, i: int, j: int, m: nat)
    requires Consistent(texts, Cursor(i, j, false))
    ensures var n := |texts[i]| - j; var rest := Run(texts, Cursor(i, |texts[i]|, true), m);
      Run(texts, Cursor(i, j, false), n + m) == (rest.0, TYPE_SPEED * (n - 1) + PAUSE_TIME + rest.1)
    decreases |texts[i]| - j
  {
    if j + 1 < |texts[i]| {
      TypingPhase(texts, i, j + 1, m);
    }
  }

  /** Deleting from character `j` empties the element after `j` calls and selects the next phrase. */
  lemma {:induction false} DeletingPhase(texts: seq<string>, i: int, j: int)
    requires Consistent(texts, Cursor(i, j, true))
    ensures Run(texts, Cursor(i, j, true), j) == (Cursor((i + 1) % |texts|, 0, false), DELETE_SPEED * (j - 1) + NEXT_TEXT_DELAY)
    decreases j
  {
    var c := Cursor(i, j, true);
    var t := Advance(texts, c);
    if j > 1 {
      DeletingPhase(texts, i, j - 1);
    } else {
      assert Run(texts, t.next, 0) == (t.next, 0);
    }
  }

  /**
   * One full cycle: from the start of phrase `i`, `2 * |phrase|` calls type it,
   * pause, delete it and land on the start of the next phrase; the delays add
   * up to `150 * |phrase| + 2350` milliseconds.
   */
  lemma FullCycle(texts: seq<string>, i: int)
    requires TextsOk(texts) && 0 <= i < |texts|
    ensures var n := |texts[i]|;
      Run(texts, Cursor(i, 0, false), 2 * n) == (Cursor((i + 1) % |texts|, 0, false), 150 * n + 2350)
  {
    var n := |texts[i]|;
    TypingPhase(texts, i, 0, n);
    DeletingPhase(texts, i, n);
  }

  /** The typewriter object: its phrases, its cursor and the text of the element it writes to. */
  class TypingEffect {
    const texts: seq<string>
    var textIndex: int
    var charIndex: int
    var isDeleting: bool
    /** `this.element.textContent`. */
    var shown: string

    ghost predicate Valid()
      reads this`textIndex, this`charIndex, this`isDeleting
    {
      Consistent(texts, State())
    }

    function State(): Cursor
      reads this`textIndex, this`charIndex, this`isDeleting
    {
      Cursor(textIndex, charIndex, isDeleting)
    }

    /**
     * `init()`: the five phrases, a cursor at the start of the first, and the
     * first call of `type()`, which shows "F". The delay that call asks for
     * goes to `setTimeout` and is dropped here.
     */
    constructor ()
      ensures texts == TEXTS && Valid()
      ensures State() == Cursor(0, 1, false) && shown == "F"
    {
      texts := TEXTS;
      textIndex, charIndex, isDeleting := 0, 0, false;
      shown := "";
      new;
      assert |TEXTS[0]| > 0 && |TEXTS[1]| > 0 && |TEXTS[2]| > 0 && |TEXTS[3]| > 0 && |TEXTS[4]| > 0;
      assert TEXTS[0][..1] == "F";
      var firstDelay := Type();
    }

    /** `type()`: one step of the typewriter; returns the delay before the next call. */
    method Type() returns (timeout: nat)
      requires Valid()
      modifies this`textIndex, this`charIndex, this`isDeleting, this`shown
      ensures var t := Advance(texts, old(State()));
        State() == t.next && shown == t.shown && timeout == t.delay
      ensures Valid() && 0 <= charIndex <= |texts[textIndex]| && shown == texts[textIndex][..charIndex]
    {
      var currentText := texts[textIndex];
      if isDeleting {
        shown := Substring(currentText, charIndex - 1);
        charIndex := charIndex - 1;
      } else {
        shown := Substring(currentText, charIndex + 1);
        charIndex := charIndex + 1;
      }
      timeout := if isDeleting then DELETE_SPEED else TYPE_SPEED;
      if !isDeleting && charIndex == |currentText| {
        timeout := PAUSE_TIME;
        isDeleting := true;
      } else if isDeleting && charIndex == 0 {
        isDeleting := false;
        textIndex := (textIndex + 1) % |texts|;
        timeout := NEXT_TEXT_DELAY;
      }
    }
  }
}
