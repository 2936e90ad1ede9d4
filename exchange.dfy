/** The collaborators the core talks to, reduced to what the core observes:
    the order gateway answers each request with success or failure, and the
    futures page shows, whenever it is read, the "closable" row with the short
    amount text and the long amount text (or cannot be read).

    Both answers are a script fixed up front: the i-th request ever sent gets
    `answers[i]`, the i-th reading ever taken shows `readings[i]`. Past the end
    of the script every request fails and every reading is unreadable. */
module ExchangeView {
  import opened Market
  import opened AmountParsing

  function ReadingAt(rs: seq<Reading>, i: nat): Reading {
    if i < |rs| then rs[i] else Unreadable
  }

  function AnswerAt(answers: seq<bool>, i: nat): bool {
    i < |answers| && answers[i]
  }

  function Repeat<T>(x: T, n: nat): (s: seq<T>)
    ensures |s| == n
    ensures forall i :: 0 <= i < n ==> s[i] == x
  {
    if n == 0 then [] else Repeat(x, n - 1) + [x]
  }

  class Exchange {
    const answers: seq<bool>
    const readings: seq<Reading>
    /** The position list each scripted reading parses to. */
    const shown: seq<seq<Position>>
    /** Every request sent so far, in order. */
    var requests: seq<Request>
    /** How many readings have been taken so far. */
    var readCount: nat

    constructor (answers: seq<bool>, readings: seq<Reading>)
      ensures this.answers == answers && this.readings == readings
      ensures requests == [] && readCount == 0
      ensures Valid()
    {
      this.answers := answers;
      this.readings := readings;
      shown := seq(|readings|, i requires 0 <= i < |readings| => OpenPositions(readings[i]));
      requests := [];
      readCount := 0;
    }

    /** `shown` holds, for every scripted reading, the list it parses to. */
    predicate Valid() {
      && |shown| == |readings|
      && (forall i {:trigger OpenPositions(readings[i])} :: 0 <= i < |readings| ==> shown[i] == OpenPositions(readings[i]))
      && (forall i :: 0 <= i < |shown| ==> AllPositive(shown[i]))
    }

    /** The position list the i-th reading shows; empty past the script. */
    function PositionsAt(i: nat): (ps: seq<Position>)
      requires Valid()
      ensures AllPositive(ps)
    {
      if i < |shown| then shown[i] else []
    }

    /** `place_market_order` / `close_position`: true when the gateway reports success. */
    method Send(r: Request) returns (ok: bool)
      modifies this`requests
      ensures requests == old(requests) + [r]
      ensures ok == AnswerAt(answers, |old(requests)|)
    {
      ok := AnswerAt(answers, |requests|);
      requests := requests + [r];
    }

    /** One look at the closable-amounts row. */
    method Read() returns (rd: Reading)
      modifies this`readCount
      ensures readCount == old(readCount) + 1
      ensures rd == ReadingAt(readings, old(readCount))
    {
      rd := ReadingAt(readings, readCount);
      readCount := readCount + 1;
    }
  }

  /** Whatever is scripted, the list a reading shows is the one the tracker's
      parser makes of it (an unreadable row, past the script, shows nothing). */
  lemma ShownIsParsed(ex: Exchange, i: nat)
    requires ex.Valid()
    ensures ex.PositionsAt(i) == OpenPositions(ReadingAt(ex.readings, i))
  {
    if i < |ex.readings| {
      assert ex.shown[i] == OpenPositions(ex.readings[i]);
    }
  }
}
