/** Checking a capture against an expected sequence of packets. */
module PacketMatching {
  import opened Wrappers

  // A packet is its fields as text; in an expected packet "*" stands for any value.
  type Packet = seq<string>

  const ANY := "*"

  // The debug log of every verdict reads the first four fields.
  const LOGGED_FIELDS := 4

  datatype MatchError = IndexError

  /** The fields are compared pairwise as far as the shorter packet goes. */
  predicate Matches(expected: Packet, actual: Packet) {
    forall k :: 0 <= k < |expected| && k < |actual| && expected[k] != ANY ==> expected[k] == actual[k]
  }

  /** Index, at or after a given one, of the first captured packet that matches. */
  function MatchFrom(expected: Packet, captured: seq<Packet>, at: nat): (found: Option<nat>)
    requires at <= |captured|
    ensures found.Some? ==> at <= found.value < |captured| && Matches(expected, captured[found.value])
    decreases |captured| - at
  {
    if at == |captured| then None
    else if Matches(expected, captured[at]) then Some(at)
    else MatchFrom(expected, captured, at + 1)
  }

  lemma {:induction false} MatchFromIsFirst(expected: Packet, captured: seq<Packet>, at: nat, k: nat)
    requires at <= k < |captured| && Matches(expected, captured[k])
    ensures MatchFrom(expected, captured, at).Some? && MatchFrom(expected, captured, at).value <= k
    decreases |captured| - at
  {
    if !Matches(expected, captured[at]) {
      MatchFromIsFirst(expected, captured, at + 1, k);
    }
  }

  /** The index chosen for each expected packet; each search starts where the last match was found. */
  function Chosen(expected: seq<Packet>, captured: seq<Packet>, lastCheck: nat): (chosen: seq<Option<nat>>)
    requires lastCheck <= |captured|
    ensures |chosen| == |expected|
    decreases |expected|
  {
    if expected == [] then []
    else
      var found := MatchFrom(expected[0], captured, lastCheck);
      [found] + Chosen(expected[1..], captured, if found.Some? then found.value else lastCheck)
  }

  function Shown(captured: seq<Packet>, index: Option<nat>): Packet {
    if index.Some? && index.value < |captured| then captured[index.value] else []
  }

  function Report(captured: seq<Packet>, chosen: seq<Option<nat>>): (result: seq<Packet>)
    ensures |result| == |chosen| && forall k :: 0 <= k < |chosen| ==> result[k] == Shown(captured, chosen[k])
  {
    seq(|chosen|, k requires 0 <= k < |chosen| => Shown(captured, chosen[k]))
  }

  predicate Loggable(expected: seq<Packet>) {
    forall k :: 0 <= k < |expected| ==> |expected[k]| >= LOGGED_FIELDS
  }

  lemma ChoosingOneMore(expected: seq<Packet>, captured: seq<Packet>, chosen: seq<Option<nat>>, n: nat, lastCheck: nat)
    requires n < |expected| && lastCheck <= |captured|
    ensures var found := MatchFrom(expected[n], captured, lastCheck);
            chosen + Chosen(expected[n..], captured, lastCheck)
            == chosen + [found] + Chosen(expected[n + 1..], captured, if found.Some? then found.value else lastCheck)
  {
    assert expected[n..][1..] == expected[n + 1..];
  }

  lemma ReportOneMore(captured: seq<Packet>, chosen: seq<Option<nat>>, found: Option<nat>)
    ensures Report(captured, chosen + [found]) == Report(captured, chosen) + [Shown(captured, found)]
  {
  }

  // ---- embeddings

  /** Every expected packet sits at a captured one that matches it, and none sits before its predecessor. */
  ghost predicate Embeds(expected: seq<Packet>, captured: seq<Packet>, at: seq<nat>) {
    && |at| == |expected|
    && (forall k :: 0 <= k < |at| ==> at[k] < |captured| && Matches(expected[k], captured[at[k]]))
    && (forall k :: 0 < k < |at| ==> at[k - 1] <= at[k])
  }

  ghost predicate AllFound(chosen: seq<Option<nat>>) {
    forall k :: 0 <= k < |chosen| ==> chosen[k].Some?
  }

  lemma EmbedsRest(expected: seq<Packet>, captured: seq<Packet>, at: seq<nat>)
    requires Embeds(expected, captured, at) && expected != []
    ensures Embeds(expected[1..], captured, at[1..]) && (|at| > 1 ==> at[0] <= at[1..][0])
  {
    assert forall k :: 0 <= k < |at[1..]| ==> at[1..][k] == at[k + 1] && expected[1..][k] == expected[k + 1];
    assert forall k :: 0 < k < |at[1..]| ==> at[1..][k - 1] == at[k];
  }

  /** The greedy choice stays ahead of any embedding that starts no earlier. */
  lemma {:induction false} StaysAhead(expected: seq<Packet>, captured: seq<Packet>, lastCheck: nat, at: seq<nat>)
    requires lastCheck <= |captured| && Embeds(expected, captured, at) && (at != [] ==> lastCheck <= at[0])
    ensures AllFound(Chosen(expected, captured, lastCheck))
    ensures forall k :: 0 <= k < |at| ==> Chosen(expected, captured, lastCheck)[k].value <= at[k]
    decreases |expected|
  {
    if expected != [] {
      MatchFromIsFirst(expected[0], captured, lastCheck, at[0]);
      var found := MatchFrom(expected[0], captured, lastCheck);
      var rest := Chosen(expected[1..], captured, found.value);
      EmbedsRest(expected, captured, at);
      StaysAhead(expected[1..], captured, found.value, at[1..]);
      var chosen := Chosen(expected, captured, lastCheck);
      assert chosen == [found] + rest;
      forall k | 0 <= k < |at| ensures chosen[k].Some? && chosen[k].value <= at[k] {
        if k > 0 {
          assert chosen[k] == rest[k - 1] && at[k] == at[1..][k - 1];
        }
      }
    }
  }

  function Positions(chosen: seq<Option<nat>>): (at: seq<nat>)
    requires AllFound(chosen)
    ensures |at| == |chosen| && forall k :: 0 <= k < |chosen| ==> at[k] == chosen[k].value
  {
    seq(|chosen|, k requires 0 <= k < |chosen| => chosen[k].value)
  }

  /** Every match lies at or after the one before it, whatever was missed in between. */
  lemma {:induction false} NeverGoesBack(expected: seq<Packet>, captured: seq<Packet>, lastCheck: nat)
    requires lastCheck <= |captured|
    ensures var chosen := Chosen(expected, captured, lastCheck);
            && (forall k :: 0 <= k < |chosen| && chosen[k].Some? ==>
                  lastCheck <= chosen[k].value < |captured| && Matches(expected[k], captured[chosen[k].value]))
            && (forall j, k :: 0 <= j < k < |chosen| && chosen[j].Some? && chosen[k].Some? ==> chosen[j].value <= chosen[k].value)
    decreases |expected|
  {
    if expected != [] {
      var found := MatchFrom(expected[0], captured, lastCheck);
      NeverGoesBack(expected[1..], captured, if found.Some? then found.value else lastCheck);
    }
  }

  /** No entry is missing if and only if the expected sequence embeds in the capture; then the matches are the earliest embedding. */
  lemma CompleteIffEmbeds(expected: seq<Packet>, captured: seq<Packet>)
    ensures var chosen := Chosen(expected, captured, 0);
            && (AllFound(chosen) <==> exists at :: Embeds(expected, captured, at))
            && (AllFound(chosen) ==> Embeds(expected, captured, Positions(chosen)))
            && (AllFound(chosen) ==> forall at :: Embeds(expected, captured, at) ==>
                  forall k :: 0 <= k < |at| ==> Positions(chosen)[k] <= at[k])
  {
    var chosen := Chosen(expected, captured, 0);
    NeverGoesBack(expected, captured, 0);
    if AllFound(chosen) {
      assert Embeds(expected, captured, Positions(chosen));
    }
    forall at | Embeds(expected, captured, at)
      ensures AllFound(chosen) && forall k :: 0 <= k < |at| ==> Positions(chosen)[k] <= at[k]
    {
      StaysAhead(expected, captured, 0, at);
    }
  }

  /** A missing entry means that nothing from the last match on would have matched. */
  lemma {:induction false} MissMeansAbsent(expected: seq<Packet>, captured: seq<Packet>, lastCheck: nat, n: nat, k: nat)
    requires lastCheck <= |captured| && n < |expected| && k < |captured|
    requires Chosen(expected, captured, lastCheck)[n].None? && Matches(expected[n], captured[k])
    ensures k < lastCheck || exists j :: 0 <= j < n && Chosen(expected, captured, lastCheck)[j].Some? && k < Chosen(expected, captured, lastCheck)[j].value
    decreases |expected|
  {
    var found := MatchFrom(expected[0], captured, lastCheck);
    if n == 0 {
      if lastCheck <= k {
        MatchFromIsFirst(expected[0], captured, lastCheck, k);
      }
    } else {
      var from := if found.Some? then found.value else lastCheck;
      var rest := Chosen(expected[1..], captured, from);
      MissMeansAbsent(expected[1..], captured, from, n - 1, k);
      if k < from {
        if found.Some? {
          assert Chosen(expected, captured, lastCheck)[0] == found;
        }
      } else {
        var j :| 0 <= j < n - 1 && rest[j].Some? && k < rest[j].value;
        assert Chosen(expected, captured, lastCheck)[j + 1] == rest[j];
      }
    }
  }

  // ---- the verdict

  /** The indices never go back, whatever is missing in between. */
  ghost predicate Forward(at: seq<Option<nat>>) {
    forall j, k :: 0 <= j < k < |at| && at[j].Some? && at[k].Some? ==> at[j].value <= at[k].value
  }

  /** Where there is an index the entry is the captured packet there, and agrees with the expected one up to "*"; where there is none it is empty. */
  ghost predicate Shows(expected: seq<Packet>, captured: seq<Packet>, result: seq<Packet>, at: seq<Option<nat>>) {
    && |result| == |at| == |expected|
    && (forall k :: 0 <= k < |at| && at[k].None? ==> result[k] == [])
    && (forall k :: 0 <= k < |at| && at[k].Some? ==> at[k].value < |captured| && result[k] == captured[at[k].value])
    && (forall k, f :: 0 <= k < |at| && at[k].Some? && 0 <= f < |expected[k]| && f < |result[k]| && expected[k][f] != "*" ==>
          expected[k][f] == result[k][f])
  }

  /** If the expected sequence embeds, every index is there and none comes later than in any embedding. */
  ghost predicate Earliest(expected: seq<Packet>, captured: seq<Packet>, at: seq<Option<nat>>) {
    forall embedding :: Embeds(expected, captured, embedding) ==>
      |at| == |embedding| && forall k :: 0 <= k < |at| ==> at[k].Some? && at[k].value <= embedding[k]
  }

  /** A captured packet that an entry could have shown but does not lies before a match of an earlier entry, or after the entry's own. */
  ghost predicate TakesFirst(expected: seq<Packet>, captured: seq<Packet>, at: seq<Option<nat>>) {
    forall n, k :: 0 <= n < |at| && n < |expected| && 0 <= k < |captured| && Matches(expected[n], captured[k]) ==>
      (at[n].Some? && at[n].value <= k) || exists j :: 0 <= j < n && at[j].Some? && k < at[j].value
  }

  /** What a verdict means, as optional indices into the capture. */
  ghost predicate Explains(expected: seq<Packet>, captured: seq<Packet>, result: seq<Packet>, at: seq<Option<nat>>) {
    Shows(expected, captured, result, at) && Forward(at) && Earliest(expected, captured, at) && TakesFirst(expected, captured, at)
  }

  lemma {:induction false} ChosenTakesFirst(expected: seq<Packet>, captured: seq<Packet>, lastCheck: nat, n: nat, k: nat)
    requires lastCheck <= k < |captured| && n < |expected| && Matches(expected[n], captured[k])
    ensures var at := Chosen(expected, captured, lastCheck);
            (at[n].Some? && at[n].value <= k) || exists j :: 0 <= j < n && at[j].Some? && k < at[j].value
    decreases |expected|
  {
    var at := Chosen(expected, captured, lastCheck);
    if n == 0 {
      MatchFromIsFirst(expected[0], captured, lastCheck, k);
    } else if at[0].Some? && k < at[0].value {
    } else {
      var from := if at[0].Some? then at[0].value else lastCheck;
      var rest := Chosen(expected[1..], captured, from);
      ChosenTakesFirst(expected[1..], captured, from, n - 1, k);
      if !(rest[n - 1].Some? && rest[n - 1].value <= k) {
        var j :| 0 <= j < n - 1 && rest[j].Some? && k < rest[j].value;
        assert at[j + 1] == rest[j];
      }
    }
  }

  lemma ReportExplains(expected: seq<Packet>, captured: seq<Packet>)
    ensures Explains(expected, captured, Report(captured, Chosen(expected, captured, 0)), Chosen(expected, captured, 0))
  {
    var at := Chosen(expected, captured, 0);
    NeverGoesBack(expected, captured, 0);
    forall embedding | Embeds(expected, captured, embedding)
      ensures |at| == |embedding| && forall k :: 0 <= k < |at| ==> at[k].Some? && at[k].value <= embedding[k]
    {
      StaysAhead(expected, captured, 0, embedding);
    }
    forall n, k | 0 <= n < |at| && n < |expected| && 0 <= k < |captured| && Matches(expected[n], captured[k])
      ensures (at[n].Some? && at[n].value <= k) || exists j :: 0 <= j < n && at[j].Some? && k < at[j].value
    {
      ChosenTakesFirst(expected, captured, 0, n, k);
    }
  }

  /** Fields agree pairwise as far as both packets go, "*" standing for anything. */
  lemma MatchingIs(expected: Packet, actual: Packet)
    ensures Matches(expected, actual) <==>
              !exists f :: 0 <= f < |expected| && f < |actual| && expected[f] != "*" && expected[f] != actual[f]
  {
  }

  method MatchTrace(expectedSequence: seq<Packet>, captured: seq<Packet>) returns (r: Result<seq<Packet>, MatchError>)
    ensures r.Failure? <==> exists k :: 0 <= k < |expectedSequence| && |expectedSequence[k]| < 4
    ensures r.Success? ==> exists at :: Explains(expectedSequence, captured, r.value, at)
  {
    var lastCheck := 0;
    var finalResult: seq<Packet> := [];
    ghost var chosen: seq<Option<nat>> := [];
    assert expectedSequence[0..] == expectedSequence;
    for n := 0 to |expectedSequence|
      invariant lastCheck <= |captured|
      invariant Chosen(expectedSequence, captured, 0) == chosen + Chosen(expectedSequence[n..], captured, lastCheck)
      invariant finalResult == Report(captured, chosen)
      invariant forall k :: 0 <= k < n ==> |expectedSequence[k]| >= LOGGED_FIELDS
    {
      var packet := expectedSequence[n];
      ChoosingOneMore(expectedSequence, captured, chosen, n, lastCheck);
      var i := lastCheck;
      while i < |captured| && !Matches(packet, captured[i])
        invariant lastCheck <= i <= |captured|
        invariant MatchFrom(packet, captured, lastCheck) == MatchFrom(packet, captured, i)
      {
        i := i + 1;
      }
      if |packet| < LOGGED_FIELDS {
        return Failure(IndexError);
      }
      ghost var found := MatchFrom(packet, captured, lastCheck);
      ReportOneMore(captured, chosen, found);
      chosen := chosen + [found];
      if i < |captured| {
        lastCheck := i;
        finalResult := finalResult + [captured[i]];
      } else {
        finalResult := finalResult + [[]];
      }
    }
    assert chosen + [] == chosen;
    ReportExplains(expectedSequence, captured);
    return Success(finalResult);
  }
}
