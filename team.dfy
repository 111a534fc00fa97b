/**
 * The team section (components/team-section.tsx): a timer reveals the member cards one by one,
 * and each card's avatar shows the member's initials.
 */
module Team {
  import opened Seqs

  /** The number of team members. */
  const TeamSize: nat := 6

  /** `0, 1, ..., n - 1`. */
  function Range(n: nat): (r: seq<nat>)
    ensures |r| == n
    ensures forall i :: 0 <= i < n ==> r[i] == i
  {
    seq(n, i requires 0 <= i => i as nat)
  }

  /** The timer tick: append the next card index while some card is hidden, otherwise keep the list. */
  function NextVisible(prev: seq<nat>, total: nat): seq<nat> {
    if |prev| < total then prev + [|prev|] else prev
  }

  /** The visible cards after `k` ticks from the empty list. */
  function VisibleAfter(k: nat, total: nat): seq<nat> {
    if k == 0 then [] else NextVisible(VisibleAfter(k - 1, total), total)
  }

  /** After `k` ticks exactly the first `min(k, total)` cards are visible, each once and in order. */
  lemma {:induction false} VisibleAfterTicks(k: nat, total: nat)
    ensures VisibleAfter(k, total) == Range(Min(k, total))
  {
    if k > 0 {
      VisibleAfterTicks(k - 1, total);
    }
  }

  /** Once every card is visible further ticks change nothing. */
  lemma RevealStops(k: nat, total: nat)
    requires k >= total
    ensures VisibleAfter(k, total) == Range(total)
    ensures NextVisible(VisibleAfter(k, total), total) == VisibleAfter(k, total)
  {
    VisibleAfterTicks(k, total);
  }

  /** A card is animated in iff its index is in `visibleCards`: for a revealed prefix, iff it is below its length. */
  lemma AnimatedIffRevealed(visible: seq<nat>, index: nat)
    requires visible == Range(|visible|)
    ensures index in visible <==> index < |visible|
  {
    if index < |visible| {
      assert visible[index] == index;
    }
  }

  /** `name.split(" ")`: the pieces between single spaces, empty pieces included. */
  function Split(s: string): (pieces: seq<string>)
    ensures |pieces| >= 1
    ensures forall i, j :: 0 <= i < |pieces| && 0 <= j < |pieces[i]| ==> pieces[i][j] != ' '
  {
    if s == [] then [""]
    else if s[0] == ' ' then [""] + Split(s[1..])
    else
      var rest := Split(s[1..]);
      [[s[0]] + rest[0]] + rest[1..]
  }

  /** `pieces.join(" ")`. */
  function Join(pieces: seq<string>): string
    requires |pieces| >= 1
  {
    if |pieces| == 1 then pieces[0] else pieces[0] + " " + Join(pieces[1..])
  }

  /** Splitting on spaces and joining with spaces gives the name back. */
  lemma {:induction false} SplitJoin(s: string)
    ensures Join(Split(s)) == s
  {
    if s != [] {
      SplitJoin(s[1..]);
      var rest := Split(s[1..]);
      if s[0] == ' ' {
        assert ([""] + rest)[1..] == rest;
      } else {
        var p := [[s[0]] + rest[0]] + rest[1..];
        if |rest| > 1 {
          assert p[1..] == rest[1..];
          AppendAssoc([s[0]], rest[0] + " ", Join(rest[1..]));
          AppendAssoc([s[0]], rest[0], " ");
        }
        assert s == [s[0]] + s[1..];
      }
    }
  }

  /** `.map(n => n[0]).join("")`: the first character of every piece; an empty piece adds nothing. */
  function FirstChars(pieces: seq<string>): string {
    if pieces == [] then ""
    else (if pieces[0] == "" then "" else [pieces[0][0]]) + FirstChars(pieces[1..])
  }

  /** The avatar text. */
  function Initials(name: string): string {
    FirstChars(Split(name))
  }

  /**
   * Reference definition: the characters of `s` that are not spaces and start `s` or follow a
   * space; `atStart` says whether the character before `s` was a space (or there was none).
   */
  function WordStarts(s: string, atStart: bool): string {
    if s == [] then ""
    else (if s[0] != ' ' && atStart then [s[0]] else "") + WordStarts(s[1..], s[0] == ' ')
  }

  lemma {:induction false} SplitWordStarts(s: string)
    ensures WordStarts(s, true) == FirstChars(Split(s))
    ensures WordStarts(s, false) == FirstChars(Split(s)[1..])
  {
    if s != [] {
      SplitWordStarts(s[1..]);
      var rest := Split(s[1..]);
      if s[0] == ' ' {
        var p := [""] + rest;
        assert p[1..] == rest;
      } else {
        var p := [[s[0]] + rest[0]] + rest[1..];
        assert p[1..] == rest[1..];
      }
    }
  }

  /** The initials are the first letters of the space-separated words, one per word. */
  lemma InitialsAreWordStarts(name: string)
    ensures Initials(name) == WordStarts(name, true)
  {
    SplitWordStarts(name);
  }

  class TeamSection {
    var visibleCards: seq<nat>

    constructor ()
      ensures visibleCards == []
    {
      visibleCards := [];
    }

    /** The revealed cards are always a prefix `0, 1, ...` of the team. */
    predicate Valid()
      reads this
    {
      |visibleCards| <= TeamSize && visibleCards == Range(|visibleCards|)
    }

    method Tick()
      requires Valid()
      modifies this
      ensures Valid()
      ensures visibleCards == NextVisible(old(visibleCards), TeamSize)
      ensures |old(visibleCards)| < TeamSize ==> |visibleCards| == |old(visibleCards)| + 1
    {
      if |visibleCards| < TeamSize {
        visibleCards := visibleCards + [|visibleCards|];
      }
    }
  }
}
