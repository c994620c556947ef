/**
 * The transit parser: the departures of a reply, kept when the vehicle is
 * at the stop or expected, without repeated display strings, in the order
 * first seen, at most three, joined by ", ", or "Inga avgångar" when none
 * is kept.
 */
module Transit {
  import opened Builtins

  /** One departure of the reply: its state and its display string. */
  datatype Departure = Departure(state: string, display: string)

  /** The text shown when no departure is kept. */
  const NoDepartures: string := "Inga avg\U{E5}ngar"

  /** The most display strings the parser collects. */
  const Cap: nat := 3

  predicate Qualifies(d: Departure) {
    d.state == "ATSTOP" || d.state == "EXPECTED"
  }

  /** The decoded reply. The "departures" entry may be missing; the other
      top-level entries are known by their keys only, since nothing reads
      them. */
  class TransitReply {
    var departures: Option<seq<Departure>>
    var otherKeys: set<string>

    constructor (departures: Option<seq<Departure>>, otherKeys: set<string>)
      ensures this.departures == departures && this.otherKeys == otherKeys
    {
      this.departures, this.otherKeys := departures, otherKeys;
    }

    /** The keys of the reply. */
    function Keys(): set<string>
      reads this
    {
      (if departures.Some? then {"departures"} else {}) + otherKeys
    }
  }

  // -----------------------------------------------------------------------
  // Specification

  /** The display strings of the qualifying departures, in order, repeats
      included. */
  function Displays(deps: seq<Departure>): (r: seq<string>)
    ensures |r| <= |deps|
    ensures forall x :: x in r <==> exists d :: d in deps && Qualifies(d) && d.display == x
  {
    if deps == [] then []
    else if Qualifies(deps[0]) then
      assert forall d :: d in deps <==> d == deps[0] || d in deps[1..];
      [deps[0].display] + Displays(deps[1..])
    else
      assert forall d :: d in deps <==> d == deps[0] || d in deps[1..];
      Displays(deps[1..])
  }

  /** The elements of `xs` not in `seen`, each once, at its first
      occurrence. */
  function DedupFrom(xs: seq<string>, seen: seq<string>): seq<string>
    decreases |xs|
  {
    if xs == [] then []
    else if xs[0] in seen then DedupFrom(xs[1..], seen)
    else [xs[0]] + DedupFrom(xs[1..], seen + [xs[0]])
  }

  function Dedup(xs: seq<string>): seq<string> {
    DedupFrom(xs, [])
  }

  /** The first `n` elements of `s`, or all of `s` when it is shorter. */
  function Take<T>(s: seq<T>, n: nat): (r: seq<T>)
    ensures |r| == if |s| <= n then |s| else n
    ensures r == s[..|r|]
  {
    if |s| <= n then s else s[..n]
  }

  /** The display strings the parser keeps. */
  function Selected(deps: seq<Departure>): seq<string> {
    Take(Dedup(Displays(deps)), Cap)
  }

  /** The text `parse_sl_data` returns for the "departures" entry of a
      reply; a missing entry counts as an empty list. */
  function TransitText(departures: Option<seq<Departure>>): string {
    var kept := Selected(if departures.Some? then departures.value else []);
    if kept == [] then NoDepartures else Join(", ", kept)
  }

  // -----------------------------------------------------------------------
  // Properties of the specification

  /** `DedupFrom` keeps exactly the elements of `xs` outside `seen`. */
  lemma {:induction false} DedupFromMembers(xs: seq<string>, seen: seq<string>)
    ensures forall y :: y in DedupFrom(xs, seen) <==> y in xs && y !in seen
    decreases |xs|
  {
    if xs != [] {
      var rest := xs[1..];
      assert forall y :: y in xs <==> y == xs[0] || y in rest;
      if xs[0] in seen {
        DedupFromMembers(rest, seen);
      } else {
        DedupFromMembers(rest, seen + [xs[0]]);
      }
    }
  }

  /** Values that occur in `xs` only after its first element are found
      one position further on than in the rest of `xs`. */
  lemma {:induction false} IndexOfShift(xs: seq<string>, ys: seq<string>)
    requires xs != [] && forall y :: y in ys ==> y in xs[1..] && y != xs[0]
    ensures forall k :: 0 <= k < |ys| ==> IndexOf(xs, ys[k]).value == IndexOf(xs[1..], ys[k]).value + 1
  {
    forall k | 0 <= k < |ys| ensures IndexOf(xs, ys[k]).value == IndexOf(xs[1..], ys[k]).value + 1 {
      assert ys[k] in ys;
      IndexOfPast(xs, ys[k]);
    }
  }

  /** Order by first occurrence in `xs`, of `x` (the first element of
      `xs`) followed by a tail already ordered by first occurrence in the
      rest. */
  lemma {:induction false} ConsOrdered(xs: seq<string>, tail: seq<string>)
    requires xs != [] && forall y :: y in tail ==> y in xs[1..] && y != xs[0]
    requires forall i, j :: 0 <= i < j < |tail| ==>
      IndexOf(xs[1..], tail[i]).value < IndexOf(xs[1..], tail[j]).value
    ensures forall i, j :: 0 <= i < j < |[xs[0]] + tail| ==>
      IndexOf(xs, ([xs[0]] + tail)[i]).value < IndexOf(xs, ([xs[0]] + tail)[j]).value
  {
    var r := [xs[0]] + tail;
    IndexOfShift(xs, tail);
    assert IndexOf(xs, xs[0]) == Some(0);
    forall i, j | 0 <= i < j < |r| ensures IndexOf(xs, r[i]).value < IndexOf(xs, r[j]).value {
      assert r[j] == tail[j - 1];
      if i > 0 {
        assert r[i] == tail[i - 1];
      }
    }
  }

  /** ... each once, ordered by their first occurrence in `xs`. */
  lemma {:induction false} DedupFromProperties(xs: seq<string>, seen: seq<string>)
    ensures Distinct(DedupFrom(xs, seen))
    ensures forall y :: y in DedupFrom(xs, seen) <==> y in xs && y !in seen
    ensures forall i, j :: 0 <= i < j < |DedupFrom(xs, seen)| ==>
      IndexOf(xs, DedupFrom(xs, seen)[i]).value < IndexOf(xs, DedupFrom(xs, seen)[j]).value
    decreases |xs|
  {
    DedupFromMembers(xs, seen);
    if xs != [] {
      var x, rest := xs[0], xs[1..];
      var r := DedupFrom(xs, seen);
      if x in seen {
        DedupFromProperties(rest, seen);
        DedupFromMembers(rest, seen);
        IndexOfShift(xs, r);
      } else {
        var tail := DedupFrom(rest, seen + [x]);
        DedupFromProperties(rest, seen + [x]);
        DedupFromMembers(rest, seen + [x]);
        assert r == [x] + tail;
        ConsOrdered(xs, tail);
        assert Distinct(r) by {
          forall i, j | 0 <= i < j < |r| ensures r[i] != r[j] {
            assert IndexOf(xs, r[i]).value < IndexOf(xs, r[j]).value;
          }
        }
      }
    }
  }

  /** What the parser keeps: at most three display strings, all of
      qualifying departures, no two equal, in the order first seen; fewer
      than three only when there are no more to keep; none exactly when no
      departure qualifies. */
  lemma SelectedProperties(deps: seq<Departure>)
    ensures |Selected(deps)| <= Cap
    ensures forall x :: x in Selected(deps) ==> exists d :: d in deps && Qualifies(d) && d.display == x
    ensures Distinct(Selected(deps))
    ensures forall x :: x in Selected(deps) ==> x in Displays(deps)
    ensures forall i, j :: 0 <= i < j < |Selected(deps)| ==>
      IndexOf(Displays(deps), Selected(deps)[i]).value < IndexOf(Displays(deps), Selected(deps)[j]).value
    ensures |Selected(deps)| < Cap ==> forall x :: x in Displays(deps) ==> x in Selected(deps)
    ensures Selected(deps) == [] <==> forall d :: d in deps ==> !Qualifies(d)
  {
    var all := Dedup(Displays(deps));
    DedupFromProperties(Displays(deps), []);
    var s := Selected(deps);
    assert s == all[..|s|];
    forall x | x in s ensures x in all {
      var k :| 0 <= k < |s| && s[k] == x;
      assert all[k] == x;
    }
    if s != [] {
      assert s[0] in all;
    }
  }

  /** The text is "Inga avgångar" when no departure qualifies, the entry
      being missing included, and otherwise the ", "-join of the kept
      display strings, starting with the first qualifying display. */
  lemma TransitTextCases(departures: Option<seq<Departure>>)
    ensures departures.None? ==> TransitText(departures) == NoDepartures
    ensures departures.Some? && (forall d :: d in departures.value ==> !Qualifies(d)) ==>
      TransitText(departures) == NoDepartures
    ensures departures.Some? && (exists d :: d in departures.value && Qualifies(d)) ==>
      var kept := Selected(departures.value);
      1 <= |kept| <= Cap && TransitText(departures) == Join(", ", kept) &&
      kept[0] == Displays(departures.value)[0]
  {
    if departures.Some? {
      var deps := departures.value;
      SelectedProperties(deps);
      var kept := Selected(deps);
      if kept != [] {
        var xs := Displays(deps);
        assert xs != [] by {
          assert kept[0] in xs;
        }
        assert Dedup(xs)[0] == xs[0];
      }
    }
  }

  // -----------------------------------------------------------------------
  // The parser

  /** The loop of `parse_sl_data` from a state with `acc` collected: each
      qualifying display not yet collected is appended, and the loop stops
      as soon as three are collected. */
  function Collect(deps: seq<Departure>, acc: seq<string>): seq<string>
    decreases |deps|
  {
    if deps == [] then acc
    else
      var d := deps[0];
      var next := if Qualifies(d) && d.display !in acc then acc + [d.display] else acc;
      if |next| == Cap then next else Collect(deps[1..], next)
  }

  /** Collecting from `acc` yields the first three of `acc` followed by
      the new display strings in first-seen order. */
  lemma {:induction false} CollectSelects(deps: seq<Departure>, acc: seq<string>)
    requires |acc| < Cap
    ensures Collect(deps, acc) == Take(acc + DedupFrom(Displays(deps), acc), Cap)
    decreases |deps|
  {
    if deps != [] {
      var d, rest := deps[0], deps[1..];
      if Qualifies(d) && d.display !in acc {
        var next := acc + [d.display];
        assert Displays(deps) == [d.display] + Displays(rest);
        assert DedupFrom(Displays(deps), acc) == [d.display] + DedupFrom(Displays(rest), next);
        assert acc + DedupFrom(Displays(deps), acc) == next + DedupFrom(Displays(rest), next);
        if |next| < Cap {
          CollectSelects(rest, next);
        }
      } else if Qualifies(d) {
        assert Displays(deps) == [d.display] + Displays(rest);
        CollectSelects(rest, acc);
      } else {
        CollectSelects(rest, acc);
      }
    }
  }

  /** `parse_sl_data`: collects the kept display strings, empties the
      reply, and returns their ", "-join or "Inga avgångar". */
  method ParseTransit(reply: TransitReply) returns (text: string)
    modifies reply
    ensures reply.Keys() == {}
    ensures text == TransitText(old(reply.departures))
  {
    var departures := if reply.departures.Some? then reply.departures.value else [];
    var result: seq<string> := [];
    var i := 0;
    CollectSelects(departures, []);
    while i < |departures|
      invariant 0 <= i <= |departures|
      invariant |result| < Cap
      invariant Collect(departures[i..], result) == Selected(departures)
    {
      var departure := departures[i];
      assert departures[i..][1..] == departures[i + 1..];
      if Qualifies(departure) && departure.display !in result {
        result := result + [departure.display];
      }
      if |result| == Cap {
        break;
      }
      i := i + 1;
    }
    reply.departures := None;
    reply.otherKeys := {};
    text := if result == [] then NoDepartures else Join(", ", result);
  }
}
