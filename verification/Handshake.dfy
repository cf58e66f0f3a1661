/** The mutual handshake (host/handshake.zig, firmware/main/auth.c) under an arbitrary network.

    One board key. The MAC is symbolic: only holders of the key can make one, and the network can
    only present what a key holder has made. Key holders use the same key for announces and HTTP
    proofs as well; those MACs are on the network too. Nonces are fresh. */
module Handshake {
  import opened Bytes
  import opened MacLayout

  type Nonce = seq<byte>
  type RunId = nat
  type Time = nat

  /** A board run has sent its nonce; `accepted` is the client nonce whose proof it took. */
  datatype BoardRun = BoardRun(sn: Nonce, began: Time, accepted: Option<Nonce>, at: Time, over: bool)

  /** A client run has read a server nonce, chosen its own and sent its proof. */
  datatype ClientRun = ClientRun(sn: Nonce, cn: Nonce, at: Time, done: bool, over: bool)

  datatype State = State(
    now: Time,
    seen: set<Nonce>,               // every nonce any party has chosen or read
    said: set<Message>,             // every message a key holder has MACed
    boards: map<RunId, BoardRun>,
    clients: map<RunId, ClientRun>,
    owner: map<Nonce, RunId>,       // the board run that chose a server nonce
    author: map<Nonce, RunId>)      // the client run that chose a client nonce

  const INITIAL := State(0, {}, {}, map[], map[], map[], map[])

  /** What the network puts where a MAC is expected: a MAC some key holder made, or anything else. */
  datatype Shown = Replayed(m: Message) | Junk

  datatype Action =
    | BoardStart(i: RunId, sn: Nonce)
    | BoardReply(i: RunId, cn: Nonce, shown: Shown)
    | ClientReply(j: RunId, sn: Nonce, cn: Nonce)
    | ClientFinish(j: RunId, shown: Shown)
    | OtherUse(m: Message)

  predicate IsNonce(n: Nonce) {
    |n| == NONCE_LEN
  }

  /** The constant-time comparison: the bytes shown are the MAC of the expected bytes. */
  predicate Matches(s: State, shown: Shown, expected: Message)
    requires WellFormed(expected)
  {
    shown.Replayed? && shown.m in s.said && WellFormed(shown.m) && Layout(shown.m) == Layout(expected)
  }

  /** An action that cannot happen in a state leaves it as it is. */
  function Step(s: State, a: Action): State {
    match a
    case BoardStart(i, sn) =>
      if i in s.boards || !IsNonce(sn) || sn in s.seen then s
      else s.(now := s.now + 1, seen := s.seen + {sn}, owner := s.owner[sn := i],
              boards := s.boards[i := BoardRun(sn, s.now, None, 0, false)])
    case BoardReply(i, cn, shown) =>
      if i !in s.boards || s.boards[i].over || !IsNonce(cn) || !IsNonce(s.boards[i].sn) then s
      else
        var b := s.boards[i];
        if Matches(s, shown, ClientProof(b.sn, cn)) then
          s.(now := s.now + 1, seen := s.seen + {cn}, said := s.said + {BoardProof(cn, b.sn)},
             boards := s.boards[i := b.(accepted := Some(cn), at := s.now, over := true)])
        else s.(now := s.now + 1, seen := s.seen + {cn}, boards := s.boards[i := b.(over := true)])
    case ClientReply(j, sn, cn) =>
      if j in s.clients || !IsNonce(sn) || !IsNonce(cn) || cn in s.seen || cn == sn then s
      else s.(now := s.now + 1, seen := s.seen + {sn, cn}, said := s.said + {ClientProof(sn, cn)},
              author := s.author[cn := j], clients := s.clients[j := ClientRun(sn, cn, s.now, false, false)])
    case ClientFinish(j, shown) =>
      if j !in s.clients || s.clients[j].over || !IsNonce(s.clients[j].sn) || !IsNonce(s.clients[j].cn) then s
      else
        var c := s.clients[j];
        s.(now := s.now + 1,
           clients := s.clients[j := c.(over := true, done := Matches(s, shown, BoardProof(c.cn, c.sn)))])
    case OtherUse(m) =>
      if !WellFormed(m) || m.ClientProof? || m.BoardProof? then s
      else s.(now := s.now + 1, said := s.said + {m})
  }

  function Exec(s: State, run: seq<Action>): State
    decreases |run|
  {
    if run == [] then s else Exec(Step(s, run[0]), run[1..])
  }

  // ------------------------------------------------------------------
  // Invariant
  // ------------------------------------------------------------------

  /** Every proof on the network was made by the run that chose its nonce. */
  predicate ProofsOwned(s: State) {
    && (forall m :: m in s.said ==> WellFormed(m))
    && (forall m :: m in s.said && m.ClientProof? ==>
          && m.cn in s.author && s.author[m.cn] in s.clients
          && s.clients[s.author[m.cn]].sn == m.sn && s.clients[s.author[m.cn]].cn == m.cn)
    && (forall m :: m in s.said && m.BoardProof? ==>
          && m.sn in s.owner && s.owner[m.sn] in s.boards
          && s.boards[s.owner[m.sn]].sn == m.sn && s.boards[s.owner[m.sn]].accepted == Some(m.cn))
  }

  predicate BoardOk(s: State, i: RunId)
    requires i in s.boards
  {
    var b := s.boards[i];
    && IsNonce(b.sn) && b.sn in s.seen && b.sn in s.owner && s.owner[b.sn] == i && b.began < s.now
    && (b.accepted.Some? ==> b.over && b.at < s.now && AcceptedOk(s, b, b.accepted.value))
  }

  /** The proof a board run took was made by the client run that chose the nonce, before that. */
  predicate AcceptedOk(s: State, b: BoardRun, cn: Nonce) {
    && ClientProof(b.sn, cn) in s.said
    && cn in s.author && s.author[cn] in s.clients
    && s.clients[s.author[cn]].at < b.at
  }

  predicate ClientOk(s: State, j: RunId)
    requires j in s.clients
  {
    var c := s.clients[j];
    && IsNonce(c.sn) && IsNonce(c.cn) && c.sn in s.seen && c.cn in s.seen
    && c.cn in s.author && s.author[c.cn] == j && c.at < s.now
    && (c.done ==> BoardProof(c.cn, c.sn) in s.said)
    && (forall i :: i in s.boards && s.boards[i].sn == c.sn ==> s.boards[i].began < c.at)
  }

  predicate Inv(s: State) {
    && ProofsOwned(s)
    && (forall i :: i in s.boards ==> BoardOk(s, i))
    && (forall j :: j in s.clients ==> ClientOk(s, j))
    && s.owner.Keys <= s.seen && s.author.Keys <= s.seen
  }

  /** Replaying a MAC only helps where the very message is expected: layouts are injective. */
  lemma MatchMeansSaid(s: State, shown: Shown, expected: Message)
    requires WellFormed(expected) && Matches(s, shown, expected)
    ensures expected in s.said
  {
    LayoutInjective(shown.m, expected);
  }

  lemma InvBoardStart(s: State, i: RunId, sn: Nonce)
    requires Inv(s)
    ensures Inv(Step(s, BoardStart(i, sn)))
  {
  }

  lemma InvBoardReply(s: State, i: RunId, cn: Nonce, shown: Shown)
    requires Inv(s)
    ensures Inv(Step(s, BoardReply(i, cn, shown)))
  {
    hide Layout;
    if i in s.boards && !s.boards[i].over && IsNonce(cn) {
      var expected := ClientProof(s.boards[i].sn, cn);
      if Matches(s, shown, expected) {
        MatchMeansSaid(s, shown, expected);
      }
    }
  }

  lemma InvClientReply(s: State, j: RunId, sn: Nonce, cn: Nonce)
    requires Inv(s)
    ensures Inv(Step(s, ClientReply(j, sn, cn)))
  {
  }

  lemma InvClientFinish(s: State, j: RunId, shown: Shown)
    requires Inv(s)
    ensures Inv(Step(s, ClientFinish(j, shown)))
  {
    hide Layout;
    if j in s.clients && !s.clients[j].over {
      var c := s.clients[j];
      if Matches(s, shown, BoardProof(c.cn, c.sn)) {
        MatchMeansSaid(s, shown, BoardProof(c.cn, c.sn));
      }
    }
  }

  lemma InvOtherUse(s: State, m: Message)
    requires Inv(s)
    ensures Inv(Step(s, OtherUse(m)))
  {
  }

  lemma InvStep(s: State, a: Action)
    requires Inv(s)
    ensures Inv(Step(s, a))
  {
    hide Inv, Step;
    match a
    case BoardStart(i, sn) => InvBoardStart(s, i, sn);
    case BoardReply(i, cn, shown) => InvBoardReply(s, i, cn, shown);
    case ClientReply(j, sn, cn) => InvClientReply(s, j, sn, cn);
    case ClientFinish(j, shown) => InvClientFinish(s, j, shown);
    case OtherUse(m) => InvOtherUse(s, m);
  }

  lemma {:induction false} InvExec(s: State, run: seq<Action>)
    requires Inv(s)
    ensures Inv(Exec(s, run))
    decreases |run|
  {
    hide Inv, Step;
    if run != [] {
      InvStep(s, run[0]);
      InvExec(Step(s, run[0]), run[1..]);
    }
  }

  // ------------------------------------------------------------------
  // Agreement
  // ------------------------------------------------------------------

  predicate Accepted(s: State, i: RunId, sn: Nonce, cn: Nonce) {
    i in s.boards && s.boards[i].sn == sn && s.boards[i].accepted == Some(cn)
  }

  predicate Chose(s: State, j: RunId, sn: Nonce, cn: Nonce) {
    j in s.clients && s.clients[j].sn == sn && s.clients[j].cn == cn
  }

  /** A client run that completes with (sn, cn) has exactly one board run that accepted (sn, cn). */
  lemma ClientAgreement(run: seq<Action>, j: RunId)
    requires j in Exec(INITIAL, run).clients && Exec(INITIAL, run).clients[j].done
    ensures
      var s := Exec(INITIAL, run);
      var c := s.clients[j];
      exists i :: Accepted(s, i, c.sn, c.cn) && forall k :: Accepted(s, k, c.sn, c.cn) ==> k == i
  {
    InvExec(INITIAL, run);
    var s := Exec(INITIAL, run);
    hide Exec;
    var c := s.clients[j];
    assert ClientOk(s, j);
    var i := s.owner[BoardProof(c.cn, c.sn).sn];
    forall k | Accepted(s, k, c.sn, c.cn)
      ensures k == i
    {
      assert BoardOk(s, k);
    }
    assert Accepted(s, i, c.sn, c.cn);
  }

  /** A board run that accepts has exactly one client run that chose cn, and it chose it for this sn,
      after the board run had begun and before the board run accepted. */
  lemma BoardAgreement(run: seq<Action>, i: RunId)
    requires i in Exec(INITIAL, run).boards && Exec(INITIAL, run).boards[i].accepted.Some?
    ensures
      var s := Exec(INITIAL, run);
      var b := s.boards[i];
      exists j ::
        && Chose(s, j, b.sn, b.accepted.value)
        && b.began < s.clients[j].at < b.at
        && forall k, sn :: Chose(s, k, sn, b.accepted.value) ==> k == j
  {
    InvExec(INITIAL, run);
    var s := Exec(INITIAL, run);
    hide Exec;
    var b := s.boards[i];
    var cn := b.accepted.value;
    assert BoardOk(s, i);
    var m := ClientProof(b.sn, cn);
    assert m in s.said;
    var j := s.author[m.cn];
    assert ClientOk(s, j);
    forall k, sn | Chose(s, k, sn, cn)
      ensures k == j
    {
      assert ClientOk(s, k);
    }
    assert Chose(s, j, b.sn, cn);
  }

  /** Distinct board runs never accept with the same client nonce: a proof admits one connection. */
  lemma NoProofTwice(run: seq<Action>, i: RunId, k: RunId)
    requires i in Exec(INITIAL, run).boards && k in Exec(INITIAL, run).boards
    requires Exec(INITIAL, run).boards[i].accepted.Some?
    requires Exec(INITIAL, run).boards[i].accepted == Exec(INITIAL, run).boards[k].accepted
    ensures i == k
  {
    InvExec(INITIAL, run);
    var s := Exec(INITIAL, run);
    hide Exec;
    assert BoardOk(s, i) && BoardOk(s, k);
    var cn := s.boards[i].accepted.value;
    var m, n := ClientProof(s.boards[i].sn, cn), ClientProof(s.boards[k].sn, cn);
    assert m in s.said && n in s.said;
    assert m.cn == n.cn == cn;
  }

  /** A run takes one answer: whatever it made of the first, a second one changes nothing. */
  lemma OneAnswerPerRun(s: State, i: RunId, cn: Nonce, shown: Shown, cn': Nonce, shown': Shown)
    requires i in s.boards && IsNonce(s.boards[i].sn) && IsNonce(cn)
    ensures
      var t := Step(s, BoardReply(i, cn, shown));
      i in t.boards && t.boards[i].over && Step(t, BoardReply(i, cn', shown')) == t
  {
    hide Layout;
  }

  lemma OneFinishPerRun(s: State, j: RunId, shown: Shown, shown': Shown)
    requires j in s.clients && IsNonce(s.clients[j].sn) && IsNonce(s.clients[j].cn)
    ensures
      var t := Step(s, ClientFinish(j, shown));
      j in t.clients && t.clients[j].over && Step(t, ClientFinish(j, shown')) == t
  {
    hide Layout;
  }

  /** The first half: the board has sent its nonce and the client has answered. */
  lemma HonestOpening(s: State, i: RunId, j: RunId, sn: Nonce, cn: Nonce)
    requires i !in s.boards && j !in s.clients && IsNonce(sn) && IsNonce(cn)
    requires sn !in s.seen && cn !in s.seen && sn != cn
    ensures
      var t := Step(Step(s, BoardStart(i, sn)), ClientReply(j, sn, cn));
      && i in t.boards && t.boards[i].sn == sn && !t.boards[i].over
      && j in t.clients && t.clients[j].sn == sn && t.clients[j].cn == cn && !t.clients[j].over
      && ClientProof(sn, cn) in t.said
  {
    hide Layout;
    var s1 := Step(s, BoardStart(i, sn));
    assert s1.boards == s.boards[i := BoardRun(sn, s.now, None, 0, false)] && s1.clients == s.clients;
    assert s1.seen == s.seen + {sn};
  }

  /** The second half: both proofs are accepted. */
  lemma HonestClosing(t: State, i: RunId, j: RunId, sn: Nonce, cn: Nonce)
    requires IsNonce(sn) && IsNonce(cn)
    requires i in t.boards && t.boards[i].sn == sn && !t.boards[i].over
    requires j in t.clients && t.clients[j].sn == sn && t.clients[j].cn == cn && !t.clients[j].over
    requires ClientProof(sn, cn) in t.said
    ensures
      var t1 := Step(t, BoardReply(i, cn, Replayed(ClientProof(sn, cn))));
      var t2 := Step(t1, ClientFinish(j, Replayed(BoardProof(cn, sn))));
      Accepted(t2, i, sn, cn) && Chose(t2, j, sn, cn) && t2.clients[j].done
  {
    hide Layout;
    var t1 := Step(t, BoardReply(i, cn, Replayed(ClientProof(sn, cn))));
    assert BoardProof(cn, sn) in t1.said && t1.clients == t.clients;
    assert i in t1.boards && t1.boards[i].sn == sn && t1.boards[i].accepted == Some(cn);
  }

  /** With nobody interfering the exchange goes through on both sides, from any state. */
  lemma HonestRun(s: State, i: RunId, j: RunId, sn: Nonce, cn: Nonce)
    requires i !in s.boards && j !in s.clients && IsNonce(sn) && IsNonce(cn)
    requires sn !in s.seen && cn !in s.seen && sn != cn
    ensures
      var s1 := Step(s, BoardStart(i, sn));
      var s2 := Step(s1, ClientReply(j, sn, cn));
      var s3 := Step(s2, BoardReply(i, cn, Replayed(ClientProof(sn, cn))));
      var s4 := Step(s3, ClientFinish(j, Replayed(BoardProof(cn, sn))));
      Accepted(s4, i, sn, cn) && Chose(s4, j, sn, cn) && s4.clients[j].done
  {
    hide Step;
    HonestOpening(s, i, j, sn, cn);
    HonestClosing(Step(Step(s, BoardStart(i, sn)), ClientReply(j, sn, cn)), i, j, sn, cn);
  }
}
