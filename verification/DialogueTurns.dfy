/** Sound evidence turn by turn: which rows count, and how one more utterance keeps the
    evidence sound. */
module DialogueTurns {
  import opened Common
  import opened Evidence

  /** Rows that are neither a speech nor an acceptance with recipients. */
  predicate Ignored(r: Row) {
    r.OtherRow? || (r.ResultRow? && (r.reason != "ok" || r.recipients <= 0))
  }

  lemma IgnoredSame(rows: seq<Row>, r: Row)
    requires Ignored(r)
    ensures Complete(rows + [r]) <==> Complete(rows)
  {
    assert !Accepts(r);
    forall k
      ensures Receivers(rows + [r], k) == Receivers(rows, k) && Spoken(rows + [r], k) == Spoken(rows, k)
      ensures Acknowledged(rows + [r], k) == Acknowledged(rows, k)
    {
      Snoc(rows, r, k);
    }
    assert forall x :: x in rows + [r] <==> x in rows || x == r;
  }

  /** Other rows, refused results and acceptances that reached nobody do not matter. */
  lemma IgnoredRowsDoNotMatter(rows: seq<Row>, r: Row)
    requires Ignored(r)
    ensures SoundEvidence(rows + [r]) <==> SoundEvidence(rows)
  {
    ConsistentSnoc(rows, r);
    assert forall x :: x in rows ==> Compatible(x, r) && AcceptedApart(x, r);
    IgnoredSame(rows, r);
  }

  /** No row speaks in this turn of this conversation or accepts it. */
  ghost predicate FreshTurn(rows: seq<Row>, conversation: string, turn: int) {
    && (forall r :: r in rows && r.Speech? ==> !(r.line.conversation == conversation && r.line.turn == turn))
    && (forall r :: r in rows && r.ResultRow? ==> !(r.conversation == conversation && r.turn == turn))
  }

  function Acceptance(line: Line): Row { ResultRow(line.conversation, line.turn, "ok", 1) }

  lemma FreshIsUnheard(rows: seq<Row>, line: Line)
    requires FreshTurn(rows, line.conversation, line.turn)
    ensures Receivers(rows, KeyOf(line)) == {} && !Spoken(rows, KeyOf(line)) && !Acknowledged(rows, KeyOf(line))
  {
  }

  /** What the two rows add, key by key. */
  lemma TurnAdds(rows: seq<Row>, line: Line, receiver: int, k: Key)
    ensures var more := rows + [Speech(line, receiver)] + [Acceptance(line)];
      && Receivers(more, k) == Receivers(rows, k) + (if k == KeyOf(line) then {receiver} else {})
      && (Spoken(more, k) <==> Spoken(rows, k) || k == KeyOf(line))
      && (Acknowledged(more, k) <==> Acknowledged(rows, k) || k == KeyOf(line))
  {
    Snoc(rows, Speech(line, receiver), k);
    Snoc(rows + [Speech(line, receiver)], Acceptance(line), k);
  }

  lemma TurnCompletes(rows: seq<Row>, line: Line, receiver: int)
    requires Complete(rows) && FreshTurn(rows, line.conversation, line.turn)
    ensures Complete(rows + [Speech(line, receiver)] + [Acceptance(line)])
  {
    var more := rows + [Speech(line, receiver)] + [Acceptance(line)];
    FreshIsUnheard(rows, line);
    forall r | r in more && r.Speech?
      ensures Acknowledged(more, KeyOf(r.line))
    {
      TurnAdds(rows, line, receiver, KeyOf(r.line));
      assert r in rows || r == Speech(line, receiver);
    }
    forall r | r in more && Accepts(r)
      ensures Spoken(more, RowKey(r)) && |Receivers(more, RowKey(r))| == r.recipients
    {
      TurnAdds(rows, line, receiver, RowKey(r));
      assert r in rows || r == Acceptance(line);
    }
  }

  /** Main result: sound evidence stays sound with one more utterance, in any turn of any
      conversation that has none yet, heard by one receiver and accepted with one recipient. */
  lemma {:induction false} UtteranceKeepsSound(rows: seq<Row>, line: Line, receiver: int)
    requires SoundEvidence(rows) && FreshTurn(rows, line.conversation, line.turn)
    ensures SoundEvidence(rows + [Speech(line, receiver)] + [Acceptance(line)])
  {
    TurnCompletes(rows, line, receiver);
  }

  /** And with one that no result accepts, or that is accepted but not heard, it is not. */
  lemma UnacceptedIsUnsound(rows: seq<Row>, line: Line, receiver: int)
    requires FreshTurn(rows, line.conversation, line.turn)
    ensures !SoundEvidence(rows + [Speech(line, receiver)])
    ensures !SoundEvidence(rows + [Acceptance(line)])
  {
    FreshIsUnheard(rows, line);
    Snoc(rows, Speech(line, receiver), KeyOf(line));
    Snoc(rows, Acceptance(line), KeyOf(line));
    assert Speech(line, receiver) in rows + [Speech(line, receiver)];
    assert Acceptance(line) in rows + [Acceptance(line)] && Accepts(Acceptance(line));
  }
}
