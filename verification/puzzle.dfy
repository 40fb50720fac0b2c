/**
 * Game 3, the letter puzzle: the player drags letter tiles from a tray into
 * the slots of the phrase "WOULD YOU BE MY VALENTINE?". Spaces are fixed
 * slots, three hints are available, and a win latch reports the win once.
 *
 * Each React state update of the component is a pure rebuild of `slots` and
 * `tray`, so every handler is a function from one `Puzzle` state to the next.
 * Slot and tray contents are JavaScript strings: "" is an empty slot or an
 * emptied tray position, " " a space slot.
 */
module LetterPuzzle {
  import opened Subsequences

  /** The phrase to assemble, "WOULD YOU BE MY VALENTINE?", written word by word. */
  const Phrase: string := "WOULD" + (" " + ("YOU" + (" " + ("BE" + (" " + ("MY" + (" " + "VALENTINE?")))))))
  /** After this many hints the hint button is disabled and `UseHint` does nothing. */
  const MaxHints: nat := 3

  datatype Option<T> = None | Some(value: T)

  /** `PHRASE[i]`: None stands for JavaScript's `undefined` outside the phrase. */
  function PhraseAt(i: int): Option<char>
  {
    if 0 <= i < |Phrase| then Some(Phrase[i]) else None
  }

  // ---------------------------------------------------------------------------
  // The letters of the phrase and the shuffled tray
  // ---------------------------------------------------------------------------

  /** The characters matched by the regular-expression class `\s` within ASCII. */
  predicate IsWhitespace(c: char)
  {
    c == ' ' || '\t' <= c <= '\r'
  }

  /** `s.replace(/\s/g, '')`: the non-whitespace characters of `s`, in order. */
  function Letters(s: string): (r: string)
    ensures |r| <= |s|
    ensures forall i :: 0 <= i < |r| ==> !IsWhitespace(r[i])
  {
    if s == [] then []
    else if IsWhitespace(s[0]) then Letters(s[1..])
    else [s[0]] + Letters(s[1..])
  }

  predicate SpaceFree(s: string)
  {
    forall i :: 0 <= i < |s| ==> !IsWhitespace(s[i])
  }

  lemma {:induction false} LettersOfSpaceFree(s: string)
    requires SpaceFree(s)
    ensures Letters(s) == s
  {
    if s != [] {
      LettersOfSpaceFree(s[1..]);
    }
  }

  lemma {:induction false} LettersOfConcat(a: string, b: string)
    ensures Letters(a + b) == Letters(a) + Letters(b)
  {
    if a == [] {
      assert a + b == b;
    } else {
      assert (a + b)[1..] == a[1..] + b;
      LettersOfConcat(a[1..], b);
    }
  }

  /** A word followed by a space and a rest whose letters are known. */
  lemma WordThenSpace(w: string, rest: string, r: string)
    requires SpaceFree(w)
    requires Letters(rest) == r
    ensures Letters(w + (" " + rest)) == w + r
  {
    LettersOfSpaceFree(w);
    LettersOfConcat(w, " " + rest);
    assert (" " + rest)[1..] == rest;
  }

  /** Five space-free words with single spaces between them. */
  lemma {:induction false} LettersOfWords(a: string, b: string, c: string, d: string, e: string)
    requires SpaceFree(a) && SpaceFree(b) && SpaceFree(c) && SpaceFree(d) && SpaceFree(e)
    ensures Letters(a + (" " + (b + (" " + (c + (" " + (d + (" " + e)))))))) == a + (b + (c + (d + e)))
  {
    LettersOfSpaceFree(e);
    WordThenSpace(d, e, e);
    WordThenSpace(c, d + (" " + e), d + e);
    WordThenSpace(b, c + (" " + (d + (" " + e))), c + (d + e));
    WordThenSpace(a, b + (" " + (c + (" " + (d + (" " + e))))), b + (c + (d + e)));
  }

  /** The phrase has 22 letters: its 26 characters less 4 spaces. */
  lemma PhraseLetters()
    ensures Letters(Phrase) == "WOULD" + ("YOU" + ("BE" + ("MY" + "VALENTINE?")))
    ensures |Phrase| == 26 && |Letters(Phrase)| == 22
  {
    LettersOfWords("WOULD", "YOU", "BE", "MY", "VALENTINE?");
  }

  /** `s.split('')`: one single-character string per character. */
  function Split(s: string): (r: seq<string>)
    ensures |r| == |s|
    ensures forall i :: 0 <= i < |s| ==> r[i] == [s[i]]
  {
    seq(|s|, i requires 0 <= i < |s| => [s[i]])
  }

  /** Every draw is a value `Math.random()` can return. */
  predicate UnitDraws(rnd: seq<real>)
  {
    forall k :: 0 <= k < |rnd| ==> 0.0 <= rnd[k] < 1.0
  }

  /** `Math.floor(rnd * n)` for a draw `rnd` of `Math.random()`: an index below `n`. */
  function Pick(rnd: real, n: nat): (k: nat)
    requires 0.0 <= rnd < 1.0 && n > 0
    ensures k < n
  {
    var x := rnd * n as real;
    assert x < n as real by {
      assert rnd * n as real < 1.0 * n as real;
    }
    x.Floor
  }

  function Swap(s: seq<string>, i: nat, j: nat): (r: seq<string>)
    requires i < |s| && j < |s|
  {
    s[i := s[j]][j := s[i]]
  }

  /**
   * The Fisher-Yates loop of `getTrayLetters` from position `i` down to 1.
   * Draw number `k` of `Math.random()` is `rnd[k]`; the first is made at
   * position `|s| - 1`.
   */
  function FisherYates(s: seq<string>, rnd: seq<real>, i: nat): seq<string>
    requires i < |s| && |rnd| >= |s| - 1 && UnitDraws(rnd)
    decreases i
  {
    if i == 0 then s
    else FisherYates(Swap(s, i, Pick(rnd[|s| - 1 - i], i + 1)), rnd, i - 1)
  }

  /** The whole shuffle; the loop does nothing on fewer than two elements. */
  function Shuffled(s: seq<string>, rnd: seq<real>): seq<string>
    requires |rnd| >= |s| - 1 && UnitDraws(rnd)
  {
    if |s| == 0 then s else FisherYates(s, rnd, |s| - 1)
  }

  lemma {:induction false} FisherYatesPermutes(s: seq<string>, rnd: seq<real>, i: nat)
    requires i < |s| && |rnd| >= |s| - 1 && UnitDraws(rnd)
    ensures |FisherYates(s, rnd, i)| == |s|
    ensures multiset(FisherYates(s, rnd, i)) == multiset(s)
    decreases i
  {
    if i > 0 {
      var j := Pick(rnd[|s| - 1 - i], i + 1);
      var t := Swap(s, i, j);
      assert multiset(t) == multiset(s) by {
        if i != j {
          assert t == s[i := s[j]][j := s[i]];
        }
      }
      FisherYatesPermutes(t, rnd, i - 1);
    }
  }

  /** Whatever the draws, the shuffle returns a permutation of its input. */
  lemma ShuffledIsPermutation(s: seq<string>, rnd: seq<real>)
    requires |rnd| >= |s| - 1 && UnitDraws(rnd)
    ensures |Shuffled(s, rnd)| == |s|
    ensures multiset(Shuffled(s, rnd)) == multiset(s)
  {
    if |s| > 0 {
      FisherYatesPermutes(s, rnd, |s| - 1);
    }
  }

  /** The in-place swap loop of `getTrayLetters`. */
  method ShuffleInPlace(a: array<string>, rnd: seq<real>)
    requires |rnd| >= a.Length - 1 && UnitDraws(rnd)
    modifies a
    ensures a[..] == Shuffled(old(a[..]), rnd)
  {
    if a.Length == 0 {
      return;
    }
    var i := a.Length - 1;
    while i > 0
      invariant 0 <= i < a.Length
      invariant FisherYates(a[..], rnd, i) == Shuffled(old(a[..]), rnd)
      decreases i
    {
      var j := Pick(rnd[a.Length - 1 - i], i + 1);
      ghost var before := a[..];
      a[i], a[j] := a[j], a[i];
      assert a[..] == Swap(before, i, j);
      i := i - 1;
    }
  }

  /**
   * `getTrayLetters`: the 22 letters of the phrase as one-character strings,
   * shuffled in place. The `Math.random()` draws are the parameter `rnd`.
   */
  method TrayLetters(rnd: seq<real>) returns (tray: seq<string>)
    requires |rnd| >= |Letters(Phrase)| - 1 && UnitDraws(rnd)
    ensures tray == Shuffled(Split(Letters(Phrase)), rnd)
    ensures |tray| == 22
    ensures multiset(tray) == multiset(Split(Letters(Phrase)))
    ensures forall j :: 0 <= j < |tray| ==> |tray[j]| == 1 && !IsWhitespace(tray[j][0])
  {
    var letters := Split(Letters(Phrase));
    var arr := new string[|letters|](i requires 0 <= i < |letters| => letters[i]);
    assert arr[..] == letters;
    ShuffleInPlace(arr, rnd);
    tray := arr[..];
    PhraseLetters();
    ShuffledIsPermutation(letters, rnd);
    forall j | 0 <= j < |tray|
      ensures |tray[j]| == 1 && !IsWhitespace(tray[j][0])
    {
      assert tray[j] in multiset(tray);
      assert tray[j] in letters;
      var i :| 0 <= i < |letters| && letters[i] == tray[j];
    }
  }

  // ---------------------------------------------------------------------------
  // Puzzle state
  // ---------------------------------------------------------------------------

  /** One slot of the phrase: its content and the `index` field set by `getSlots`. */
  datatype Slot = Slot(ch: string, index: int)

  /** The tile being dragged, if any, and where it was picked up. */
  datatype Drag = NoDrag | FromTray(index: nat) | FromSlot(index: nat)

  /** The component state: `slots`, `tray`, `hintsUsed`, `dragged` and `won`. */
  datatype Puzzle = Puzzle(slots: seq<Slot>, tray: seq<string>, hintsUsed: nat, dragged: Drag, won: bool)

  /** `getSlots`: one slot per phrase character, spaces pre-filled, letters empty. */
  function InitialSlots(): (r: seq<Slot>)
    ensures |r| == |Phrase|
    ensures forall i :: 0 <= i < |r| ==> r[i].index == i
    ensures forall i :: 0 <= i < |r| ==> (Phrase[i] == ' ' ==> r[i].ch == " ") && (Phrase[i] != ' ' ==> r[i].ch == "")
  {
    seq(|Phrase|, i requires 0 <= i < |Phrase| => Slot(if Phrase[i] == ' ' then " " else "", i))
  }

  /** The state after mounting, with the shuffled `tray`. */
  function InitialPuzzle(tray: seq<string>): Puzzle
  {
    Puzzle(InitialSlots(), tray, 0, NoDrag, false)
  }

  /** The invariant every reachable state keeps. */
  predicate Valid(p: Puzzle)
  {
    && |p.slots| == |Phrase|
    && (forall i :: 0 <= i < |Phrase| ==> p.slots[i].index == i)
    && (forall i :: 0 <= i < |Phrase| && Phrase[i] == ' ' ==> p.slots[i].ch == " ")
    && p.hintsUsed <= MaxHints
    && (p.dragged.FromSlot? ==> p.dragged.index < |Phrase| && Phrase[p.dragged.index] != ' ')
    && (p.won ==> Solved(p))
  }

  /** The win condition: every slot holds its phrase character and every tray entry is empty. */
  predicate Solved(p: Puzzle)
  {
    && |p.slots| >= |Phrase|
    && (forall i :: 0 <= i < |Phrase| ==> p.slots[i].ch == [Phrase[i]])
    && (forall j :: 0 <= j < |p.tray| ==> p.tray[j] == "")
  }

  lemma InitialPuzzleValid(tray: seq<string>)
    ensures Valid(InitialPuzzle(tray)) && !Solved(InitialPuzzle(tray))
  {
    var s := InitialSlots();
    assert Phrase[0] == 'W' && s[0].ch == "";
  }

  // ---------------------------------------------------------------------------
  // Helpers mirroring `map` and `filter`
  // ---------------------------------------------------------------------------

  /** `slots.map((s, k) => k === i ? { ...s, char: c } : s)`. */
  function SetSlot(slots: seq<Slot>, i: int, c: string): (r: seq<Slot>)
    ensures |r| == |slots|
    ensures forall k :: 0 <= k < |slots| ==> r[k] == if k == i then slots[k].(ch := c) else slots[k]
  {
    seq(|slots|, k requires 0 <= k < |slots| => if k == i then slots[k].(ch := c) else slots[k])
  }

  /** `tray.map((c, k) => k === i ? '' : c)`. */
  function ClearTray(tray: seq<string>, i: int): (r: seq<string>)
    ensures |r| == |tray|
    ensures forall k :: 0 <= k < |tray| ==> r[k] == if k == i then "" else tray[k]
  {
    seq(|tray|, k requires 0 <= k < |tray| => if k == i then "" else tray[k])
  }

  /** `tray.filter((c) => c !== '')`: the non-empty entries in their order. */
  function Compact(tray: seq<string>): (r: seq<string>)
    ensures forall j :: 0 <= j < |r| ==> r[j] != ""
    ensures multiset(r) == multiset(tray)[[] := 0]
    ensures IsSubseq(r, tray)
  {
    if tray == [] then []
    else if tray[0] == "" then
      var rest := Compact(tray[1..]);
      assert tray == [tray[0]] + tray[1..];
      SubseqOfTail(rest, tray);
      rest
    else
      var rest := Compact(tray[1..]);
      assert ([tray[0]] + rest)[1..] == rest;
      assert tray == [tray[0]] + tray[1..];
      [tray[0]] + rest
  }

  /** `array.indexOf(x)`: the first position holding `x`, or -1. */
  function IndexOf(t: seq<string>, x: string): (r: int)
    ensures -1 <= r < |t|
    ensures r == -1 <==> x !in t
    ensures 0 <= r ==> t[r] == x && x !in t[..r]
  {
    if t == [] then -1
    else if t[0] == x then 0
    else
      var k := IndexOf(t[1..], x);
      assert t == [t[0]] + t[1..];
      if k == -1 then -1
      else
        assert t[..k + 1] == [t[0]] + t[1..][..k];
        k + 1
  }

  /** ASCII `toUpperCase` of one character. */
  function UpperChar(c: char): char
  {
    if 'a' <= c <= 'z' then (c as int - 32) as char else c
  }

  /** `String.prototype.toUpperCase`, restricted to ASCII letters. */
  function Upper(s: string): (r: string)
    ensures |r| == |s|
    ensures forall i :: 0 <= i < |s| ==> !('a' <= r[i] <= 'z')
    ensures forall i :: 0 <= i < |s| ==> !('a' <= s[i] <= 'z') ==> r[i] == s[i]
    ensures forall i :: 0 <= i < |s| && 'a' <= s[i] <= 'z' ==> r[i] as int == s[i] as int - 32
  {
    seq(|s|, i requires 0 <= i < |s| => UpperChar(s[i]))
  }

  // ---------------------------------------------------------------------------
  // The handlers
  // ---------------------------------------------------------------------------

  /**
   * `putInSlot`. Nothing happens on a space slot. Otherwise the target slot
   * receives the uppercased character, whatever it held before, and then the
   * drag source is emptied: a tray entry, or a slot. A slot dropped onto
   * itself therefore ends up empty.
   */
  function PutInSlot(p: Puzzle, slot: nat, c: string): (r: Puzzle)
    ensures PhraseAt(slot) == Some(' ') ==> r == p
    ensures PhraseAt(slot) != Some(' ') ==>
      && r.dragged == NoDrag && r.hintsUsed == p.hintsUsed && r.won == p.won
      && |r.slots| == |p.slots| && |r.tray| == |p.tray|
      && (slot < |p.slots| ==> r.slots[slot].ch == if p.dragged == FromSlot(slot) then "" else Upper(c))
      && (p.dragged.FromSlot? && p.dragged.index < |p.slots| ==> r.slots[p.dragged.index].ch == "")
      && (p.dragged.FromTray? && p.dragged.index < |p.tray| ==> r.tray[p.dragged.index] == "")
      && (forall k :: 0 <= k < |p.slots| && k != slot && p.dragged != FromSlot(k) ==> r.slots[k] == p.slots[k])
      && (forall k :: 0 <= k < |p.slots| ==> r.slots[k].index == p.slots[k].index)
      && (forall k :: 0 <= k < |p.tray| && p.dragged != FromTray(k) ==> r.tray[k] == p.tray[k])
  {
    if PhraseAt(slot) == Some(' ') then p
    else
      var placed := SetSlot(p.slots, slot, Upper(c));
      match p.dragged
      case FromTray(k) => p.(slots := placed, tray := ClearTray(p.tray, k), dragged := NoDrag)
      case FromSlot(k) => p.(slots := SetSlot(placed, k, ""), dragged := NoDrag)
      case NoDrag => p.(slots := placed, dragged := NoDrag)
  }

  /**
   * `returnToTray`: the tray is compacted to its non-empty entries, the
   * character is appended, and the slot is emptied.
   */
  function ReturnToTray(p: Puzzle, slot: nat, c: string): (r: Puzzle)
    ensures r.dragged == NoDrag && r.hintsUsed == p.hintsUsed && r.won == p.won
    ensures r.tray == ReturnedTray(p.tray, c)
    ensures |r.slots| == |p.slots|
    ensures slot < |p.slots| ==> r.slots[slot].ch == ""
    ensures forall k :: 0 <= k < |p.slots| && k != slot ==> r.slots[k] == p.slots[k]
    ensures forall k :: 0 <= k < |p.slots| ==> r.slots[k].index == p.slots[k].index
  {
    p.(tray := ReturnedTray(p.tray, c), slots := SetSlot(p.slots, slot, ""), dragged := NoDrag)
  }

  /**
   * The tray after `returnToTray`: its non-empty entries in their old order,
   * then the returned character.
   */
  function ReturnedTray(tray: seq<string>, c: string): (r: seq<string>)
    ensures |r| > 0 && r[|r| - 1] == c
    ensures IsSubseq(r[..|r| - 1], tray)
    ensures forall j :: 0 <= j < |r| - 1 ==> r[j] != ""
    ensures multiset(r) == multiset(tray)[[] := 0] + multiset{c}
  {
    var kept := Compact(tray);
    assert (kept + [c])[..|kept|] == kept;
    kept + [c]
  }

  /** A slot the hint may fill: empty, and not at a space of the phrase. */
  predicate IsOpen(s: Slot)
  {
    s.ch == "" && PhraseAt(s.index) != Some(' ')
  }

  /** The `emptySlots` filter of `useHint`, in slot order. */
  function OpenSlots(slots: seq<Slot>): (r: seq<Slot>)
    ensures forall s :: s in r ==> s in slots && IsOpen(s)
    ensures forall k :: 0 <= k < |slots| && IsOpen(slots[k]) ==> slots[k] in r
  {
    if slots == [] then []
    else
      var rest := OpenSlots(slots[1..]);
      assert forall k :: 1 <= k < |slots| ==> slots[k] == slots[1..][k - 1];
      if IsOpen(slots[0]) then [slots[0]] + rest else rest
  }

  /** The slot index `useHint` targets with draw `rnd`, or None if no slot is open. */
  function HintTarget(slots: seq<Slot>, rnd: real): (r: Option<int>)
    requires 0.0 <= rnd < 1.0
    ensures r.None? <==> forall k :: 0 <= k < |slots| ==> !IsOpen(slots[k])
    ensures r.Some? ==> exists k :: 0 <= k < |slots| && IsOpen(slots[k]) && slots[k].index == r.value
  {
    var open := OpenSlots(slots);
    if |open| == 0 then None
    else
      var s := open[Pick(rnd, |open|)];
      assert s in open;
      Some(s.index)
  }

  /**
   * `useHint`: when fewer than three hints were used, a randomly chosen open
   * slot receives its phrase letter, provided that letter is still in the
   * tray; the first tray entry holding it is emptied and one hint is spent.
   * In every other case nothing changes.
   */
  function UseHint(p: Puzzle, rnd: real): (r: Puzzle)
    requires 0.0 <= rnd < 1.0
    ensures r.won == p.won && r.dragged == p.dragged
    ensures |r.slots| == |p.slots| && |r.tray| == |p.tray|
    ensures p.hintsUsed >= MaxHints ==> r == p
    ensures (forall k :: 0 <= k < |p.slots| ==> !IsOpen(p.slots[k])) ==> r == p
    ensures r != p <==>
      && p.hintsUsed < MaxHints
      && HintTarget(p.slots, rnd).Some?
      && 0 <= HintTarget(p.slots, rnd).value < |Phrase|
      && [Phrase[HintTarget(p.slots, rnd).value]] in p.tray
    ensures r != p ==>
      var t := HintTarget(p.slots, rnd).value;
      var k := IndexOf(p.tray, [Phrase[t]]);
      && r.hintsUsed == p.hintsUsed + 1 <= MaxHints
      && 0 <= k && p.tray[k] == [Phrase[t]] && [Phrase[t]] !in p.tray[..k]
      && r.tray[k] == ""
      && (forall j :: 0 <= j < |p.tray| && j != k ==> r.tray[j] == p.tray[j])
      && (0 <= t < |p.slots| ==> r.slots[t].ch == [Phrase[t]])
      && (forall j :: 0 <= j < |p.slots| && j != t ==> r.slots[j] == p.slots[j])
      && (forall j :: 0 <= j < |p.slots| ==> r.slots[j].index == p.slots[j].index)
  {
    if p.hintsUsed >= MaxHints then p
    else match HintTarget(p.slots, rnd)
      case None => p
      case Some(t) =>
        match PhraseAt(t)
        case None => p
        case Some(c) =>
          var k := IndexOf(p.tray, [c]);
          if k < 0 then p
          else
            var r := p.(slots := SetSlot(p.slots, t, [c]), tray := ClearTray(p.tray, k), hintsUsed := p.hintsUsed + 1);
            assert r.hintsUsed != p.hintsUsed;
            r
  }

  /**
   * `handleSlotDrop`: the dragged text is placed only if it is non-empty and
   * the slot is not a space; the drag source is reset in every case.
   */
  function HandleSlotDrop(p: Puzzle, slot: nat, data: string): (r: Puzzle)
    ensures r.dragged == NoDrag && r.hintsUsed == p.hintsUsed && r.won == p.won
    ensures |r.slots| == |p.slots|
    ensures data == "" || PhraseAt(slot) == Some(' ') ==> r == p.(dragged := NoDrag)
    ensures data != "" && PhraseAt(slot) != Some(' ') && slot < |p.slots| ==>
      r.slots[slot].ch == if p.dragged == FromSlot(slot) then "" else Upper(data)
    // a letter that lands moves exactly as `PutInSlot` says, tray and other slots included
    ensures data != "" && PhraseAt(slot) != Some(' ') ==> r == PutInSlot(p, slot, data)
  {
    var q := if data != "" && PhraseAt(slot) != Some(' ') then PutInSlot(p, slot, data) else p;
    q.(dragged := NoDrag)
  }

  /**
   * `handleTrayDrop`: a tile goes back to the tray only when it is dragged
   * from an existing, non-empty slot; the drag source is reset in every case.
   */
  function HandleTrayDrop(p: Puzzle): (r: Puzzle)
    ensures r.dragged == NoDrag && r.hintsUsed == p.hintsUsed && r.won == p.won
    ensures |r.slots| == |p.slots|
    ensures !(p.dragged.FromSlot? && p.dragged.index < |p.slots| && p.slots[p.dragged.index].ch != "") ==>
      r == p.(dragged := NoDrag)
    ensures p.dragged.FromSlot? && p.dragged.index < |p.slots| && p.slots[p.dragged.index].ch != "" ==>
      && r.slots[p.dragged.index].ch == ""
      && |r.tray| > 0 && r.tray[|r.tray| - 1] == p.slots[p.dragged.index].ch
      && multiset(r.tray) == multiset(p.tray)[[] := 0] + multiset{p.slots[p.dragged.index].ch}
      && r.tray == ReturnedTray(p.tray, p.slots[p.dragged.index].ch)
    ensures forall k :: 0 <= k < |p.slots| && p.dragged != FromSlot(k) ==> r.slots[k] == p.slots[k]
    ensures forall k :: 0 <= k < |p.slots| ==> r.slots[k].index == p.slots[k].index
  {
    var q := match p.dragged
      case FromSlot(k) => if k < |p.slots| && p.slots[k].ch != "" then ReturnToTray(p, k, p.slots[k].ch) else p
      case _ => p;
    q.(dragged := NoDrag)
  }

  /** `onDragStart` of a tray tile; only non-empty entries are rendered. */
  function TrayDragStart(p: Puzzle, i: nat): (r: Puzzle)
    ensures r.dragged == (if i < |p.tray| && p.tray[i] != "" then FromTray(i) else p.dragged)
    ensures r.slots == p.slots && r.tray == p.tray && r.hintsUsed == p.hintsUsed && r.won == p.won
  {
    if i < |p.tray| && p.tray[i] != "" then p.(dragged := FromTray(i)) else p
  }

  /** `onDragStart` of a slot: only a slot holding something other than a space can be dragged. */
  function SlotDragStart(p: Puzzle, i: nat): (r: Puzzle)
    ensures r.dragged == if i < |p.slots| && p.slots[i].ch != "" && p.slots[i].ch != " " then FromSlot(i) else p.dragged
    ensures r.slots == p.slots && r.tray == p.tray && r.hintsUsed == p.hintsUsed && r.won == p.won
  {
    if i < |p.slots| && p.slots[i].ch != "" && p.slots[i].ch != " " then p.(dragged := FromSlot(i)) else p
  }

  /** The user-interface events of the component. */
  datatype Event =
    | SlotDrop(slot: nat, data: string)
    | TrayDrop
    | TrayDrag(index: nat)
    | SlotDrag(index: nat)
    | DragEnded
    | HintPressed(rnd: real)

  predicate WellFormed(e: Event)
  {
    e.HintPressed? ==> 0.0 <= e.rnd < 1.0
  }

  /**
   * One event. Once won, the component renders only its closing card, so no
   * handler can run any more.
   */
  function Apply(p: Puzzle, e: Event): (r: Puzzle)
    requires WellFormed(e)
    ensures p.won ==> r == p
    ensures r.won == p.won
  {
    if p.won then p
    else match e
      case SlotDrop(slot, data) => HandleSlotDrop(p, slot, data)
      case TrayDrop => HandleTrayDrop(p)
      case TrayDrag(i) => TrayDragStart(p, i)
      case SlotDrag(i) => SlotDragStart(p, i)
      case DragEnded => p.(dragged := NoDrag)
      case HintPressed(rnd) => UseHint(p, rnd)
  }

  /**
   * The win-check effect: it latches `won` the first time the puzzle is
   * solved, and reports whether `onWin` fires.
   */
  function WinCheck(p: Puzzle): (r: (Puzzle, bool))
    ensures r.1 <==> !p.won && Solved(p)
    ensures r.0.won == (p.won || Solved(p))
    ensures r.0.slots == p.slots && r.0.tray == p.tray && r.0.hintsUsed == p.hintsUsed && r.0.dragged == p.dragged
  {
    if Solved(p) && !p.won then (p.(won := true), true) else (p, false)
  }

  /** An event followed by the win-check effect. */
  function Step(p: Puzzle, e: Event): (r: (Puzzle, bool))
    requires WellFormed(e)
    ensures p.won ==> r == (p, false)
    ensures r.1 <==> !p.won && r.0.won
  {
    WinCheck(Apply(p, e))
  }

  /** A run of events: the final state and how often `onWin` fired. */
  function Run(p: Puzzle, es: seq<Event>): (r: (Puzzle, nat))
    requires forall i :: 0 <= i < |es| ==> WellFormed(es[i])
    ensures r.1 <= 1
    ensures p.won ==> r == (p, 0)
    ensures r.1 == 1 ==> !p.won && r.0.won
    decreases |es|
  {
    if es == [] then (p, 0)
    else
      var (q, fired) := Step(p, es[0]);
      var (r, n) := Run(q, es[1..]);
      (r, n + (if fired then 1 else 0))
  }

  lemma SlotDropKeepsValid(p: Puzzle, slot: nat, data: string)
    requires Valid(p) && !p.won
    ensures Valid(HandleSlotDrop(p, slot, data))
  {
    var q := HandleSlotDrop(p, slot, data);
    forall i | 0 <= i < |Phrase| && Phrase[i] == ' '
      ensures q.slots[i].ch == " "
    {
      assert p.dragged != FromSlot(i);
      if i == slot {
        assert PhraseAt(slot) == Some(' ');
      }
    }
  }

  lemma SlotDragKeepsValid(p: Puzzle, i: nat)
    requires Valid(p)
    ensures Valid(SlotDragStart(p, i))
  {
    if i < |p.slots| && p.slots[i].ch != "" && p.slots[i].ch != " " {
      assert Phrase[i] != ' ';
    }
  }

  /** In a valid puzzle the hint targets an open slot by its own position, never a space. */
  lemma HintTargetOpen(p: Puzzle, rnd: real)
    requires Valid(p) && 0.0 <= rnd < 1.0 && HintTarget(p.slots, rnd).Some?
    ensures var t := HintTarget(p.slots, rnd).value;
      0 <= t < |Phrase| && IsOpen(p.slots[t]) && Phrase[t] != ' '
  {
    var t := HintTarget(p.slots, rnd).value;
    var k :| 0 <= k < |p.slots| && IsOpen(p.slots[k]) && p.slots[k].index == t;
    assert k == t;
  }

  lemma HintKeepsValid(p: Puzzle, rnd: real)
    requires Valid(p) && !p.won && 0.0 <= rnd < 1.0
    ensures Valid(UseHint(p, rnd))
  {
    var q := UseHint(p, rnd);
    if q != p {
      HintTargetOpen(p, rnd);
      var t := HintTarget(p.slots, rnd).value;
      forall i | 0 <= i < |Phrase| && Phrase[i] == ' '
        ensures q.slots[i].ch == " "
      {
        assert i != t;
      }
    }
  }

  lemma TrayDropKeepsValid(p: Puzzle)
    requires Valid(p) && !p.won
    ensures Valid(HandleTrayDrop(p))
  {
    var q := HandleTrayDrop(p);
    forall i | 0 <= i < |Phrase| && Phrase[i] == ' '
      ensures q.slots[i].ch == " "
    {
      assert p.dragged != FromSlot(i);
    }
  }

  /** Every handler keeps the invariant, before the win check runs. */
  lemma ApplyKeepsValid(p: Puzzle, e: Event)
    requires Valid(p) && WellFormed(e)
    ensures Valid(Apply(p, e)) && Apply(p, e).won == p.won
  {
    if !p.won {
      match e
      case SlotDrop(slot, data) => SlotDropKeepsValid(p, slot, data);
      case TrayDrop => TrayDropKeepsValid(p);
      case TrayDrag(i) =>
      case SlotDrag(i) => SlotDragKeepsValid(p, i);
      case DragEnded =>
      case HintPressed(rnd) => HintKeepsValid(p, rnd);
    }
  }

  /**
   * Every event keeps the invariant: space slots stay " ", slot indices stay
   * put, at most three hints are used, and a won puzzle is solved. `onWin`
   * fires only when the puzzle becomes won, and a won puzzle no longer changes.
   */
  lemma StepKeepsValid(p: Puzzle, e: Event)
    requires Valid(p) && WellFormed(e)
    ensures Valid(Step(p, e).0)
    ensures Step(p, e).1 ==> !p.won && Step(p, e).0.won
    ensures p.won ==> Step(p, e) == (p, false)
  {
    ApplyKeepsValid(p, e);
  }

  /**
   * Over any run, `onWin` fires at most once, never after the puzzle was
   * already won, and the invariant holds at the end.
   */
  lemma {:induction false} WinFiresAtMostOnce(p: Puzzle, es: seq<Event>)
    requires Valid(p)
    requires forall i :: 0 <= i < |es| ==> WellFormed(es[i])
    ensures Valid(Run(p, es).0)
    ensures Run(p, es).1 <= (if p.won then 0 else 1)
    ensures p.won ==> Run(p, es).0 == p
    ensures Run(p, es).1 == 1 ==> Run(p, es).0.won && Solved(Run(p, es).0)
    decreases |es|
  {
    if es != [] {
      StepKeepsValid(p, es[0]);
      var (q, fired) := Step(p, es[0]);
      WinFiresAtMostOnce(q, es[1..]);
    }
  }
}
