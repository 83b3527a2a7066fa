/** The dialogue evidence checker: it accepts exactly the evidence its specification
    describes, in whatever order the rows come. */
module Evidence {
  import opened Common

  type Key = (string, int)

  /** The compared fields of an utterance. */
  datatype Line = Line(conversation: string, turn: int, speaker: int, target: int, text: string)

  datatype Row =
    | Speech(line: Line, receiver: int)
    | ResultRow(conversation: string, turn: int, reason: string, recipients: int)
    | OtherRow

  datatype Event = Event(line: Line, recipients: seq<int>)

  datatype Heard = Heard(line: Line, receiver: int)

  function KeyOf(l: Line): Key { (l.conversation, l.turn) }

  function EventKey(e: Event): Key { KeyOf(e.line) }

  function HeardKey(h: Heard): Key { KeyOf(h.line) }

  predicate Accepts(r: Row) { r.ResultRow? && r.reason == "ok" && r.recipients > 0 }

  function RowKey(r: Row): Key
    requires !r.OtherRow?
  {
    if r.Speech? then KeyOf(r.line) else (r.conversation, r.turn)
  }

  // ----- what sound authority evidence is -----

  function Receivers(rows: seq<Row>, k: Key): set<int> {
    set r | r in rows && r.Speech? && KeyOf(r.line) == k :: r.receiver
  }

  /** Two speech rows of one key say the same to different receivers. */
  ghost predicate Compatible(a: Row, b: Row) {
    a.Speech? && b.Speech? && KeyOf(a.line) == KeyOf(b.line) ==> a.line == b.line && a.receiver != b.receiver
  }

  /** No key is accepted twice. */
  ghost predicate AcceptedApart(a: Row, b: Row) {
    Accepts(a) && Accepts(b) ==> RowKey(a) != RowKey(b)
  }

  ghost predicate Consistent(rows: seq<Row>) {
    forall i, j :: 0 <= i < j < |rows| ==> Compatible(rows[i], rows[j]) && AcceptedApart(rows[i], rows[j])
  }

  ghost predicate Spoken(rows: seq<Row>, k: Key) { exists r :: r in rows && r.Speech? && KeyOf(r.line) == k }

  ghost predicate Acknowledged(rows: seq<Row>, k: Key) { exists r :: r in rows && Accepts(r) && RowKey(r) == k }

  /** Acceptances and speeches have the same keys, with as many receivers as declared. */
  ghost predicate Complete(rows: seq<Row>) {
    && (forall r :: r in rows && r.Speech? ==> Acknowledged(rows, KeyOf(r.line)))
    && (forall r :: r in rows && Accepts(r) ==> Spoken(rows, RowKey(r)) && |Receivers(rows, RowKey(r))| == r.recipients)
  }

  ghost predicate SoundEvidence(rows: seq<Row>) { Consistent(rows) && Complete(rows) }

  /** The list of events says what the rows say. */
  ghost predicate Describes(events: seq<Event>, rows: seq<Row>) {
    && DistinctKeys(events, EventKey)
    && (forall e :: e in events ==>
          && Spoken(rows, EventKey(e))
          && (forall r :: r in rows && r.Speech? && KeyOf(r.line) == EventKey(e) ==> r.line == e.line)
          && Members(e.recipients) == Receivers(rows, EventKey(e))
          && |e.recipients| == |Receivers(rows, EventKey(e))|)
    && (forall r :: r in rows && r.Speech? ==> exists e :: e in events && EventKey(e) == KeyOf(r.line))
  }

  ghost predicate DistinctKeys<T>(items: seq<T>, key: T -> Key) {
    forall i, j :: 0 <= i < j < |items| ==> key(items[i]) != key(items[j])
  }

  // ----- the collecting loop -----

  /** What the speech dictionary (with its insertion order) holds after some rows. */
  ghost predicate SpeechesCollected(rows: seq<Row>, order: seq<Key>, speeches: map<Key, Event>) {
    && (forall k :: k in speeches <==> Spoken(rows, k))
    && (forall k :: k in order <==> k in speeches)
    && (forall i, j :: 0 <= i < j < |order| ==> order[i] != order[j])
    && (forall k :: k in speeches ==> Holds(rows, k, speeches[k]))
    && (forall r :: r in rows && r.Speech? ==> KeyOf(r.line) in speeches && r.line == speeches[KeyOf(r.line)].line)
  }

  function Members(s: seq<int>): set<int> { set c | c in s }

  ghost predicate Holds(rows: seq<Row>, k: Key, e: Event) {
    EventKey(e) == k && Members(e.recipients) == Receivers(rows, k) && |e.recipients| == |Receivers(rows, k)|
  }

  /** What the result dictionary holds after some rows. */
  ghost predicate ResultsCollected(rows: seq<Row>, results: map<Key, int>) {
    && (forall k :: k in results <==> Acknowledged(rows, k))
    && (forall r :: r in rows && Accepts(r) ==> RowKey(r) in results && results[RowKey(r)] == r.recipients)
  }

  lemma Snoc(rows: seq<Row>, r: Row, k: Key)
    ensures Receivers(rows + [r], k) ==
      if r.Speech? && KeyOf(r.line) == k then Receivers(rows, k) + {r.receiver} else Receivers(rows, k)
    ensures Spoken(rows + [r], k) <==> Spoken(rows, k) || (r.Speech? && KeyOf(r.line) == k)
    ensures Acknowledged(rows + [r], k) <==> Acknowledged(rows, k) || (Accepts(r) && RowKey(r) == k)
  {
  }

  lemma ConsistentSnoc(rows: seq<Row>, r: Row)
    ensures Consistent(rows + [r]) <==>
      Consistent(rows) && forall x :: x in rows ==> Compatible(x, r) && AcceptedApart(x, r)
  {
    var all := rows + [r];
    if Consistent(all) {
      forall i, j | 0 <= i < j < |rows|
        ensures Compatible(rows[i], rows[j]) && AcceptedApart(rows[i], rows[j])
      {
        assert all[i] == rows[i] && all[j] == rows[j];
      }
      forall x | x in rows
        ensures Compatible(x, r) && AcceptedApart(x, r)
      {
        var i :| 0 <= i < |rows| && rows[i] == x;
        assert all[i] == x && all[|rows|] == r;
      }
    }
  }

  /** A speech row that clashes with what its key already says makes the rows inconsistent. */
  lemma SpeechClash(rows: seq<Row>, order: seq<Key>, speeches: map<Key, Event>, row: Row)
    requires SpeechesCollected(rows, order, speeches) && row.Speech? && KeyOf(row.line) in speeches
    requires speeches[KeyOf(row.line)].line != row.line || row.receiver in speeches[KeyOf(row.line)].recipients
    ensures !Consistent(rows + [row])
  {
    var k := KeyOf(row.line);
    ConsistentSnoc(rows, row);
    if speeches[k].line != row.line {
      var x :| x in rows && x.Speech? && KeyOf(x.line) == k;
      assert !Compatible(x, row);
    } else {
      assert row.receiver in Members(speeches[k].recipients);
      var x :| x in rows && x.Speech? && KeyOf(x.line) == k && x.receiver == row.receiver;
      assert !Compatible(x, row);
    }
  }

  lemma SpeechFits(rows: seq<Row>, order: seq<Key>, speeches: map<Key, Event>, row: Row, event: Event)
    requires Consistent(rows) && SpeechesCollected(rows, order, speeches) && row.Speech?
    requires event == if KeyOf(row.line) in speeches then speeches[KeyOf(row.line)] else Event(row.line, [])
    requires event.line == row.line && row.receiver !in event.recipients
    ensures Consistent(rows + [row])
  {
    ConsistentSnoc(rows, row);
    forall x | x in rows
      ensures Compatible(x, row)
    {
      if x.Speech? && KeyOf(x.line) == KeyOf(row.line) {
        assert x.receiver in Receivers(rows, KeyOf(row.line));
      }
    }
  }

  /** Adding the receiver to its event keeps the dictionary in step with the rows. */
  lemma CollectSpeech(rows: seq<Row>, order: seq<Key>, speeches: map<Key, Event>, row: Row, event: Event)
    requires SpeechesCollected(rows, order, speeches) && row.Speech?
    requires event == if KeyOf(row.line) in speeches then speeches[KeyOf(row.line)] else Event(row.line, [])
    requires event.line == row.line && row.receiver !in event.recipients
    ensures var k := KeyOf(row.line);
      SpeechesCollected(rows + [row], if k in speeches then order else order + [k],
                        speeches[k := event.(recipients := event.recipients + [row.receiver])])
  {
    var k := KeyOf(row.line);
    var event' := event.(recipients := event.recipients + [row.receiver]);
    var speeches' := speeches[k := event'];
    forall j
      ensures j in speeches' <==> Spoken(rows + [row], j)
    {
      Snoc(rows, row, j);
    }
    if k !in speeches {
      assert Receivers(rows, k) == {} by {
        assert !Spoken(rows, k);
      }
    }
    assert Members(event.recipients) == Receivers(rows, k) && |event.recipients| == |Receivers(rows, k)|;
    assert Members(event'.recipients) == Members(event.recipients) + {row.receiver};
    forall j | j in speeches'
      ensures Holds(rows + [row], j, speeches'[j])
    {
      Snoc(rows, row, j);
    }
    assert forall x :: x in rows + [row] <==> x in rows || x == row;
  }

  lemma OtherKeepsSpeeches(rows: seq<Row>, order: seq<Key>, speeches: map<Key, Event>, row: Row)
    requires SpeechesCollected(rows, order, speeches) && !row.Speech?
    ensures SpeechesCollected(rows + [row], order, speeches)
  {
    forall k
      ensures Spoken(rows + [row], k) == Spoken(rows, k) && Receivers(rows + [row], k) == Receivers(rows, k)
    {
      Snoc(rows, row, k);
    }
    assert forall x :: x in rows + [row] <==> x in rows || x == row;
  }

  lemma ResultFits(rows: seq<Row>, results: map<Key, int>, row: Row)
    requires Consistent(rows) && ResultsCollected(rows, results) && !row.Speech?
    ensures Consistent(rows + [row]) <==> (Accepts(row) ==> RowKey(row) !in results)
  {
    ConsistentSnoc(rows, row);
    if Accepts(row) && RowKey(row) in results {
      var x :| x in rows && Accepts(x) && RowKey(x) == RowKey(row);
      assert !AcceptedApart(x, row);
    }
  }

  /** The final comparison of the two dictionaries is the completeness of the rows. */
  lemma CompleteIff(rows: seq<Row>, order: seq<Key>, speeches: map<Key, Event>, results: map<Key, int>)
    requires SpeechesCollected(rows, order, speeches) && ResultsCollected(rows, results)
    ensures Complete(rows) <==>
      && results.Keys == speeches.Keys
      && forall k :: k in results && k in speeches ==> |speeches[k].recipients| == results[k]
  {
  }

  lemma ListDescribes(rows: seq<Row>, order: seq<Key>, speeches: map<Key, Event>, events: seq<Event>)
    requires SpeechesCollected(rows, order, speeches) && |events| == |order|
    requires forall i :: 0 <= i < |order| ==> order[i] in speeches && events[i] == speeches[order[i]]
    ensures Describes(events, rows)
  {
  }

  // ----- in the order of the rows -----

  /** The keys that are spoken, in the order of their first speech. */
  function KeysSpoken(rows: seq<Row>): seq<Key> {
    if rows == [] then []
    else
      var before, r := KeysSpoken(rows[..|rows| - 1]), rows[|rows| - 1];
      if r.Speech? && KeyOf(r.line) !in before then before + [KeyOf(r.line)] else before
  }

  /** The receivers of a key, in the order of their speeches. */
  function ReceiversListed(rows: seq<Row>, k: Key): seq<int> {
    if rows == [] then []
    else
      var r := rows[|rows| - 1];
      ReceiversListed(rows[..|rows| - 1], k) + if r.Speech? && KeyOf(r.line) == k then [r.receiver] else []
  }

  ghost predicate Listed(rows: seq<Row>, order: seq<Key>, speeches: map<Key, Event>) {
    order == KeysSpoken(rows) && forall k :: k in speeches ==> speeches[k].recipients == ReceiversListed(rows, k)
  }

  /** The events come in the order of their first speech, with their receivers in order. */
  ghost predicate InOrder(events: seq<Event>, rows: seq<Row>) {
    && |events| == |KeysSpoken(rows)|
    && forall i :: 0 <= i < |events| ==>
         EventKey(events[i]) == KeysSpoken(rows)[i]
         && events[i].recipients == ReceiversListed(rows, KeysSpoken(rows)[i])
  }

  lemma {:induction false} UnspokenHasNone(rows: seq<Row>, k: Key)
    requires k !in KeysSpoken(rows)
    ensures ReceiversListed(rows, k) == []
  {
    if rows != [] {
      UnspokenHasNone(rows[..|rows| - 1], k);
    }
  }

  lemma SpeechListed(rows: seq<Row>, order: seq<Key>, speeches: map<Key, Event>, row: Row, event: Event)
    requires Listed(rows, order, speeches) && row.Speech? && (forall k :: k in order <==> k in speeches)
    requires event == if KeyOf(row.line) in speeches then speeches[KeyOf(row.line)] else Event(row.line, [])
    ensures var k := KeyOf(row.line);
      Listed(rows + [row], if k in speeches then order else order + [k],
             speeches[k := event.(recipients := event.recipients + [row.receiver])])
  {
    var k := KeyOf(row.line);
    if k !in speeches {
      UnspokenHasNone(rows, k);
    }
    forall j | j in speeches
      ensures ReceiversListed(rows + [row], j) == ReceiversListed(rows, j) + if j == k then [row.receiver] else []
    {
    }
  }

  /** What both dictionaries hold after some rows that do not contradict each other. */
  ghost predicate Collected(rows: seq<Row>, order: seq<Key>, speeches: map<Key, Event>, results: map<Key, int>) {
    && Consistent(rows) && SpeechesCollected(rows, order, speeches) && ResultsCollected(rows, results)
    && Listed(rows, order, speeches)
  }

  /** One speech row: refused exactly when it contradicts the rows before it. */
  method CollectSpeechRow(ghost rows: seq<Row>, row: Row, order: seq<Key>, speeches: map<Key, Event>,
                          ghost results: map<Key, int>)
    returns (ok: bool, order': seq<Key>, speeches': map<Key, Event>)
    requires Collected(rows, order, speeches, results) && row.Speech?
    ensures ok <==> Consistent(rows + [row])
    ensures ok ==> Collected(rows + [row], order', speeches', results)
  {
    ok, order', speeches' := false, order, speeches;
    var k := KeyOf(row.line);
    var event := if k in speeches then speeches[k] else Event(row.line, []);
    if event.line != row.line || row.receiver in event.recipients {
      SpeechClash(rows, order, speeches, row);
      return;
    }
    SpeechFits(rows, order, speeches, row, event);
    CollectSpeech(rows, order, speeches, row, event);
    SpeechListed(rows, order, speeches, row, event);
    ok := true;
    order' := if k in speeches then order else order + [k];
    speeches' := speeches[k := event.(recipients := event.recipients + [row.receiver])];
  }

  /** One other row: refused exactly when it accepts a key a second time. */
  method CollectResultRow(ghost rows: seq<Row>, row: Row, ghost order: seq<Key>, ghost speeches: map<Key, Event>,
                          results: map<Key, int>)
    returns (ok: bool, results': map<Key, int>)
    requires Collected(rows, order, speeches, results) && !row.Speech?
    ensures ok <==> Consistent(rows + [row])
    ensures ok ==> Collected(rows + [row], order, speeches, results')
  {
    results' := results;
    ResultFits(rows, results, row);
    ok := !(Accepts(row) && RowKey(row) in results);
    if ok {
      OtherKeepsSpeeches(rows, order, speeches, row);
      results' := if Accepts(row) then results[RowKey(row) := row.recipients] else results;
    }
  }

  /** The final comparison of the two dictionaries, and the list of events. */
  method Compare(ghost rows: seq<Row>, order: seq<Key>, speeches: map<Key, Event>, results: map<Key, int>)
    returns (r: Option<seq<Event>>)
    requires Collected(rows, order, speeches, results)
    ensures r.Some? <==> Complete(rows)
    ensures r.Some? ==> Describes(r.value, rows) && InOrder(r.value, rows)
  {
    CompleteIff(rows, order, speeches, results);
    if results.Keys != speeches.Keys {
      return None;
    }
    if exists k :: k in results && |speeches[k].recipients| != results[k] {
      return None;
    }
    var events := seq(|order|, i requires 0 <= i < |order| && order[i] in speeches => speeches[order[i]]);
    ListDescribes(rows, order, speeches, events);
    r := Some(events);
  }

  /** One more row of the evidence, whichever it is. */
  method CollectRow(ghost seen: seq<Row>, row: Row, order: seq<Key>, speeches: map<Key, Event>, results: map<Key, int>)
    returns (ok: bool, order': seq<Key>, speeches': map<Key, Event>, results': map<Key, int>)
    requires Collected(seen, order, speeches, results)
    ensures ok <==> Consistent(seen + [row])
    ensures ok ==> Collected(seen + [row], order', speeches', results')
  {
    order', speeches', results' := order, speeches, results;
    if row.Speech? {
      ok, order', speeches' := CollectSpeechRow(seen, row, order, speeches, results);
    } else {
      ok, results' := CollectResultRow(seen, row, order, speeches, results);
    }
  }

  /** Accepts exactly the sound evidence, and returns the events it describes. */
  method AuthorityEvents(rows: seq<Row>) returns (r: Option<seq<Event>>)
    ensures r.Some? <==> SoundEvidence(rows)
    ensures r.Some? ==> Describes(r.value, rows) && InOrder(r.value, rows)
  {
    var speeches: map<Key, Event> := map[];
    var results: map<Key, int> := map[];
    var order: seq<Key> := [];
    for i := 0 to |rows|
      invariant Collected(rows[..i], order, speeches, results)
    {
      var ok;
      assert rows[..i + 1] == rows[..i] + [rows[i]];
      ok, order, speeches, results := CollectRow(rows[..i], rows[i], order, speeches, results);
      if !ok {
        return None;
      }
    }
    assert rows[..|rows|] == rows;
    r := Compare(rows, order, speeches, results);
  }

  // ----- delivery -----

  /** `indexed`: a dictionary by key that refuses a repeated key. */
  method Indexed<T>(items: seq<T>, key: T -> Key) returns (r: Option<map<Key, T>>)
    ensures r.Some? <==> DistinctKeys(items, key)
    ensures r.Some? ==> IndexOf(r.value, items, key)
  {
    var m: map<Key, T> := map[];
    for i := 0 to |items|
      invariant DistinctKeys(items[..i], key) && IndexOf(m, items[..i], key)
    {
      var k := key(items[i]);
      if k in m {
        var j :| 0 <= j < i && key(items[j]) == k;
        return None;
      }
      m := m[k := items[i]];
      assert items[..i + 1] == items[..i] + [items[i]];
    }
    assert items[..|items|] == items;
    r := Some(m);
  }

  ghost predicate IndexOf<T>(m: map<Key, T>, items: seq<T>, key: T -> Key) {
    && (forall i :: 0 <= i < |items| ==> key(items[i]) in m && m[key(items[i])] == items[i])
    && (forall k :: k in m ==> exists i :: 0 <= i < |items| && key(items[i]) == k)
  }

  /** The actor heard this event: same fields, addressed to it. */
  ghost predicate Matches(h: Heard, e: Event, cid: int) {
    h.line == e.line && h.receiver == cid && cid in e.recipients
  }

  /** The actor heard exactly the events that list it, each once. */
  ghost predicate HeardExactly(heard: seq<Heard>, events: seq<Event>, cid: int) {
    && DistinctKeys(heard, HeardKey)
    && (forall h :: h in heard ==> exists e :: e in events && Matches(h, e, cid))
    && (forall e :: e in events && cid in e.recipients ==> exists h :: h in heard && Matches(h, e, cid))
  }

  predicate Says(e: Event, conversation: string, speaker: int, target: int) {
    e.line.conversation == conversation && e.line.speaker == speaker && e.line.target == target
  }

  ghost predicate Spoke(events: seq<Event>, conversation: string, speaker: int, target: int) {
    exists e :: e in events && Says(e, conversation, speaker, target)
  }

  /** The two NPCs spoke to each other, both ways, in one conversation. */
  ghost predicate TwoWay(events: seq<Event>, first: int, second: int) {
    exists c :: Spoke(events, c, first, second) && Spoke(events, c, second, first)
  }

  ghost predicate Delivered(events: seq<Event>, received: map<string, seq<Heard>>, actors: seq<(string, int)>,
                            npcs: seq<int>) {
    && DistinctKeys(events, EventKey) && events != []
    && (forall i :: 0 <= i < |actors| ==>
        actors[i].0 in received && HeardExactly(received[actors[i].0], events, actors[i].1))
    && |npcs| == 2 && npcs[0] != npcs[1]
    && TwoWay(events, npcs[0], npcs[1])
  }

  /** One actor's evidence, checked through the two dictionaries. */
  method CheckActor(heard: seq<Heard>, events: seq<Event>, truth: map<Key, Event>, cid: int) returns (ok: bool)
    requires DistinctKeys(events, EventKey) && IndexOf(truth, events, EventKey)
    ensures ok <==> HeardExactly(heard, events, cid)
  {
    var index := Indexed(heard, HeardKey);
    if index == None {
      return false;
    }
    var m := index.value;
    var expected := set k | k in truth && cid in truth[k].recipients;
    ok := (forall k :: k in m ==> m[k].receiver == cid)
      && m.Keys == expected
      && (forall k :: k in m && k in truth ==> m[k].line == truth[k].line);
    assert ok == IndexesAgree(m, truth, cid);
    if ok {
      AgreeingIsHeardExactly(heard, events, m, truth, cid);
    } else if HeardExactly(heard, events, cid) {
      HeardExactlyAgrees(heard, events, m, truth, cid);
    }
  }

  /** Looking items up by key and listing them are the same thing. */
  lemma IndexFacts<T>(items: seq<T>, m: map<Key, T>, key: T -> Key)
    requires IndexOf(m, items, key)
    ensures forall x :: x in items <==> key(x) in m && m[key(x)] == x
    ensures forall k :: k in m ==> m[k] in items && key(m[k]) == k
  {
  }

  ghost predicate IndexesAgree(m: map<Key, Heard>, truth: map<Key, Event>, cid: int) {
    && (forall k :: k in m ==> m[k].receiver == cid)
    && m.Keys == (set k | k in truth && cid in truth[k].recipients)
    && (forall k :: k in m && k in truth ==> m[k].line == truth[k].line)
  }

  lemma HeardExactlyAgrees(heard: seq<Heard>, events: seq<Event>, m: map<Key, Heard>, truth: map<Key, Event>, cid: int)
    requires IndexOf(m, heard, HeardKey) && IndexOf(truth, events, EventKey) && HeardExactly(heard, events, cid)
    ensures IndexesAgree(m, truth, cid)
  {
    IndexFacts(heard, m, HeardKey);
    IndexFacts(events, truth, EventKey);
    forall k | k in m
      ensures m[k].receiver == cid && k in truth && cid in truth[k].recipients && m[k].line == truth[k].line
    {
      var e :| e in events && Matches(m[k], e, cid);
      assert EventKey(e) == k;
    }
    forall k | k in truth && cid in truth[k].recipients
      ensures k in m
    {
      var h :| h in heard && Matches(h, truth[k], cid);
      assert HeardKey(h) == k;
    }
  }

  lemma AgreeingIsHeardExactly(heard: seq<Heard>, events: seq<Event>, m: map<Key, Heard>, truth: map<Key, Event>,
                               cid: int)
    requires DistinctKeys(heard, HeardKey) && IndexOf(m, heard, HeardKey) && IndexOf(truth, events, EventKey)
    requires IndexesAgree(m, truth, cid)
    ensures HeardExactly(heard, events, cid)
  {
    IndexFacts(heard, m, HeardKey);
    IndexFacts(events, truth, EventKey);
    forall h | h in heard
      ensures exists e :: e in events && Matches(h, e, cid)
    {
      var k := HeardKey(h);
      assert k in m.Keys;
      assert Matches(h, truth[k], cid);
    }
    forall e | e in events && cid in e.recipients
      ensures exists h :: h in heard && Matches(h, e, cid)
    {
      var k := EventKey(e);
      assert k in m.Keys;
      assert Matches(m[k], e, cid);
    }
  }

  /** Accepts exactly when every actor heard exactly the events listing it and the two
      NPCs held a two-way conversation. */
  method Delivery(events: seq<Event>, received: map<string, seq<Heard>>, actors: seq<(string, int)>, npcs: seq<int>)
    returns (ok: bool, counts: map<string, nat>)
    ensures ok <==> Delivered(events, received, actors, npcs)
    ensures ok ==> forall i :: 0 <= i < |actors| ==>
      actors[i].0 in counts && counts[actors[i].0] == |received[actors[i].0]|
  {
    ok, counts := false, map[];
    var index := Indexed(events, EventKey);
    if index == None || events == [] {
      return;
    }
    for i := 0 to |actors|
      invariant forall j :: 0 <= j < i ==>
        actors[j].0 in received && HeardExactly(received[actors[j].0], events, actors[j].1)
      invariant forall j :: 0 <= j < i ==> actors[j].0 in counts && counts[actors[j].0] == |received[actors[j].0]|
    {
      if actors[i].0 !in received {
        return;
      }
      var fine := CheckActor(received[actors[i].0], events, index.value, actors[i].1);
      if !fine {
        return;
      }
      counts := counts[actors[i].0 := |received[actors[i].0]|];
    }
    if |npcs| != 2 || npcs[0] == npcs[1] {
      return;
    }
    ok := HeldConversation(events, npcs[0], npcs[1]);
  }

  method HeldConversation(events: seq<Event>, first: int, second: int) returns (ok: bool)
    ensures ok <==> TwoWay(events, first, second)
  {
    var initiated := set e | e in events && e.line.speaker == first && e.line.target == second :: e.line.conversation;
    var answered := set e | e in events && e.line.speaker == second && e.line.target == first :: e.line.conversation;
    ok := initiated * answered != {};
    forall c
      ensures c in initiated <==> Spoke(events, c, first, second)
      ensures c in answered <==> Spoke(events, c, second, first)
    {
      if c in initiated {
        var e :| e in events && Says(e, c, first, second);
      }
      if c in answered {
        var e :| e in events && Says(e, c, second, first);
      }
    }
    if ok {
      var c :| c in initiated * answered;
      assert Spoke(events, c, first, second);
    } else {
      forall c
        ensures !(Spoke(events, c, first, second) && Spoke(events, c, second, first))
      {
        assert c !in initiated * answered;
      }
    }
  }

  // ----- order does not matter -----

  lemma {:induction false} TwoPlaces<T>(s: seq<T>, x: T) returns (i: nat, j: nat)
    requires multiset(s)[x] >= 2
    ensures i < j < |s| && s[i] == x && s[j] == x
  {
    var n := |s| - 1;
    assert s == s[..n] + [s[n]];
    if s[n] == x && x in s[..n] {
      i :| 0 <= i < n && s[..n][i] == x;
      j := n;
    } else {
      i, j := TwoPlaces(s[..n], x);
    }
  }

  lemma PlacesCount<T>(s: seq<T>, i: nat, j: nat)
    requires i < j < |s| && s[i] == s[j]
    ensures multiset(s)[s[i]] >= 2
  {
    assert s == s[..j] + [s[j]] + s[j + 1..];
    assert s[i] in s[..j];
  }

  lemma ConsistentIgnoresOrder(a: seq<Row>, b: seq<Row>)
    requires multiset(a) == multiset(b) && Consistent(a)
    ensures Consistent(b)
  {
    forall i, j | 0 <= i < j < |b|
      ensures Compatible(b[i], b[j]) && AcceptedApart(b[i], b[j])
    {
      if b[i] == b[j] {
        PlacesCount(b, i, j);
        var k, l := TwoPlaces(a, b[i]);
      } else {
        assert b[i] in multiset(b) && b[j] in multiset(b);
        var k :| 0 <= k < |a| && a[k] == b[i];
        var l :| 0 <= l < |a| && a[l] == b[j];
        assert k != l;
      }
    }
  }

  lemma SameRows(a: seq<Row>, b: seq<Row>)
    requires multiset(a) == multiset(b)
    ensures forall r :: r in a <==> r in b
    ensures forall k :: Receivers(a, k) == Receivers(b, k)
    ensures forall k :: Spoken(a, k) == Spoken(b, k)
    ensures forall k :: Acknowledged(a, k) == Acknowledged(b, k)
  {
    forall r
      ensures r in a <==> r in b
    {
      assert r in a <==> r in multiset(a);
      assert r in b <==> r in multiset(b);
    }
  }

  /** Main result: the authority verdict does not depend on the order of the rows. */
  lemma AuthorityIgnoresOrder(a: seq<Row>, b: seq<Row>)
    requires multiset(a) == multiset(b)
    ensures SoundEvidence(a) <==> SoundEvidence(b)
  {
    SameRows(a, b);
    if Consistent(a) {
      ConsistentIgnoresOrder(a, b);
    }
    if Consistent(b) {
      ConsistentIgnoresOrder(b, a);
    }
  }

  /** What a list of events says, with the recipients as a set. */
  function Meaning(events: seq<Event>): set<(Line, set<int>)> {
    set e | e in events :: (e.line, Members(e.recipients))
  }

  lemma Twin(a: seq<Event>, b: seq<Event>, e: Event) returns (f: Event)
    requires Meaning(a) <= Meaning(b) && e in a
    ensures f in b && f.line == e.line && Members(f.recipients) == Members(e.recipients)
  {
    assert (e.line, Members(e.recipients)) in Meaning(b);
    f :| f in b && (f.line, Members(f.recipients)) == (e.line, Members(e.recipients));
  }

  lemma DescriptionsAgree(events: seq<Event>, others: seq<Event>, a: seq<Row>, b: seq<Row>, e: Event)
    requires multiset(a) == multiset(b) && Describes(events, a) && Describes(others, b) && e in events
    ensures (e.line, Members(e.recipients)) in Meaning(others)
  {
    SameRows(a, b);
    var r :| r in a && r.Speech? && KeyOf(r.line) == EventKey(e);
    var f :| f in others && EventKey(f) == KeyOf(r.line);
    assert r.line == e.line && r.line == f.line;
  }

  lemma SameMembers<T>(a: seq<T>, b: seq<T>)
    requires multiset(a) == multiset(b)
    ensures forall x :: x in a <==> x in b
  {
    forall x
      ensures x in a <==> x in b
    {
      assert x in a <==> x in multiset(a);
      assert x in b <==> x in multiset(b);
    }
  }

  lemma DistinctIgnoresOrder<T>(a: seq<T>, b: seq<T>, key: T -> Key)
    requires multiset(a) == multiset(b) && DistinctKeys(a, key)
    ensures DistinctKeys(b, key)
  {
    SameMembers(a, b);
    forall i, j | 0 <= i < j < |b|
      ensures key(b[i]) != key(b[j])
    {
      if b[i] == b[j] {
        PlacesCount(b, i, j);
        var k, l := TwoPlaces(a, b[i]);
      } else {
        var k :| 0 <= k < |a| && a[k] == b[i];
        var l :| 0 <= l < |a| && a[l] == b[j];
        assert k != l;
      }
    }
  }

  lemma HeardIgnoresOrder(heard: seq<Heard>, again: seq<Heard>, a: seq<Event>, b: seq<Event>, cid: int)
    requires multiset(heard) == multiset(again) && Meaning(a) == Meaning(b) && HeardExactly(heard, a, cid)
    ensures HeardExactly(again, b, cid)
  {
    SameMembers(heard, again);
    DistinctIgnoresOrder(heard, again, HeardKey);
    forall h | h in again
      ensures exists f :: f in b && Matches(h, f, cid)
    {
      var e :| e in a && Matches(h, e, cid);
      var f := Twin(a, b, e);
      assert cid in Members(e.recipients);
      assert Matches(h, f, cid);
    }
    forall f | f in b && cid in f.recipients
      ensures exists h :: h in again && Matches(h, f, cid)
    {
      var e := Twin(b, a, f);
      assert cid in Members(f.recipients);
      var h :| h in heard && Matches(h, e, cid);
      assert Matches(h, f, cid);
    }
  }

  lemma SpokeIgnoresOrder(a: seq<Event>, b: seq<Event>, c: string, speaker: int, target: int)
    requires Meaning(a) == Meaning(b) && Spoke(a, c, speaker, target)
    ensures Spoke(b, c, speaker, target)
  {
    var e :| e in a && Says(e, c, speaker, target);
    var f := Twin(a, b, e);
    assert Says(f, c, speaker, target);
  }

  lemma TwoWayIgnoresOrder(a: seq<Event>, b: seq<Event>, first: int, second: int)
    requires Meaning(a) == Meaning(b) && TwoWay(a, first, second)
    ensures TwoWay(b, first, second)
  {
    var c :| Spoke(a, c, first, second) && Spoke(a, c, second, first);
    SpokeIgnoresOrder(a, b, c, first, second);
    SpokeIgnoresOrder(a, b, c, second, first);
  }

  lemma DescriptionsSame(events: seq<Event>, others: seq<Event>, a: seq<Row>, b: seq<Row>)
    requires multiset(a) == multiset(b) && Describes(events, a) && Describes(others, b)
    ensures Meaning(events) <= Meaning(others)
  {
    forall e | e in events
      ensures (e.line, Members(e.recipients)) in Meaning(others)
    {
      DescriptionsAgree(events, others, a, b, e);
    }
  }

  lemma AcceptedInAnyOrder(events: seq<Event>, list: seq<Event>, received: map<string, seq<Heard>>,
                           again: map<string, seq<Heard>>, actors: seq<(string, int)>, npcs: seq<int>)
    requires Meaning(events) == Meaning(list) && DistinctKeys(list, EventKey)
    requires received.Keys == again.Keys
    requires forall role :: role in received ==> multiset(received[role]) == multiset(again[role])
    requires Delivered(events, received, actors, npcs)
    ensures Delivered(list, again, actors, npcs)
  {
    var first := Twin(events, list, events[0]);
    forall i | 0 <= i < |actors|
      ensures actors[i].0 in again && HeardExactly(again[actors[i].0], list, actors[i].1)
    {
      HeardIgnoresOrder(received[actors[i].0], again[actors[i].0], events, list, actors[i].1);
    }
    TwoWayIgnoresOrder(events, list, npcs[0], npcs[1]);
  }

  /** Main result: permuting the authority rows and what each actor received leaves the
      delivery verdict unchanged. */
  lemma DeliveryIgnoresOrder(rows: seq<Row>, others: seq<Row>, events: seq<Event>, list: seq<Event>,
                             received: map<string, seq<Heard>>, again: map<string, seq<Heard>>,
                             actors: seq<(string, int)>, npcs: seq<int>)
    requires multiset(rows) == multiset(others) && Describes(events, rows) && Describes(list, others)
    requires received.Keys == again.Keys
    requires forall role :: role in received ==> multiset(received[role]) == multiset(again[role])
    ensures Delivered(events, received, actors, npcs) <==> Delivered(list, again, actors, npcs)
  {
    DescriptionsSame(events, list, rows, others);
    DescriptionsSame(list, events, others, rows);
    if Delivered(events, received, actors, npcs) {
      AcceptedInAnyOrder(events, list, received, again, actors, npcs);
    }
    if Delivered(list, again, actors, npcs) {
      AcceptedInAnyOrder(list, events, again, received, actors, npcs);
    }
  }
}
