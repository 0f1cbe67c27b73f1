/**
A run of the bus in which two replicas win an election of the same epoch.

Node 1 is the only master with slots, so one vote is a majority.  Nodes 2 and 3 are its
replicas, both asked to fail it over.  Node 2 counts the acknowledgement of its first
attempt after re-arming, before its second request, and so carries one vote into an epoch
in which nobody voted for it.
*/
module SplitElection {
  import opened Options
  import opened ClusterView
  import opened ClusterBus

  const ENV := Env(0, 0, true, false, true, true)

  function Members(): map<Id, Info> {
    map[1 := Info(true, None, 0, false, 0), 2 := Info(false, Some(1), 0, false, 0), 3 := Info(false, Some(1), 0, false, 0)]
  }

  function Member(n: Id, cur: nat, lastVote: nat, authEpoch: nat, count: nat, sent: bool): View {
    View(n, Members(), [Some(1)], [None], [None], cur, lastVote, authEpoch, count, sent, 1)
  }

  function Request(n: Id, epoch: nat): Packet {
    Packet(Header(n, Some(1), epoch, 0, [true]), AuthRequest(true))
  }

  function Ack(epoch: nat): Packet {
    Packet(Header(1, None, epoch, 0, [true]), AuthAck)
  }

  function At(v1: View, v2: View, v3: View, net: seq<Envelope>): Bus {
    Bus(1, map[1 := v1, 2 := v2, 3 := v3], net)
  }

  lemma MemberOk(n: Id, cur: nat, lastVote: nat, authEpoch: nat, count: nat, sent: bool)
    requires n in Members()
    ensures Ok(Member(n, cur, lastVote, authEpoch, count, sent))
  {}

  lemma Headers(n: Id, cur: nat, lastVote: nat, authEpoch: nat, count: nat, sent: bool)
    requires n in Members()
    ensures var v := Member(n, cur, lastVote, authEpoch, count, sent);
            Ok(v) && BuildHeader(v) == Header(n, if n == 1 then None else Some(1), cur, 0, [true])
  {
    MemberOk(n, cur, lastVote, authEpoch, count, sent);
    assert Bitmap([Some(1)], 1) == [true];
  }

  lemma MayAct(n: Id, cur: nat, lastVote: nat, authEpoch: nat, count: nat, sent: bool)
    requires n == 2 || n == 3
    ensures var v := Member(n, cur, lastVote, authEpoch, count, sent); Ok(v) && MayFailover(v, ENV)
  {
    var v := Member(n, cur, lastVote, authEpoch, count, sent);
    MemberOk(n, cur, lastVote, authEpoch, count, sent);
    assert v.slots[0] == Some(1);
  }

  // A step whose votes and wins of epoch 2 are sized by the one master.
  ghost predicate Steps(b: Bus, a: Action, b': Bus) {
    Enabled(b, a) && Next(b, a) == b' && Electorate(b, a, 2, {1})
  }

  lemma AskStep(b: Bus, n: Id, cur: nat, authEpoch: nat, count: nat, voters: seq<Id>)
    requires (n == 2 || n == 3) && n !in voters && n in b.views && b.slotCount == 1
    requires b.views[n] == Member(n, cur, 0, authEpoch, count, false)
    ensures Steps(b, RequestTimer(n, ENV, voters),
                  Bus(1, b.views[n := Member(n, cur + 1, 0, cur + 1, count, true)],
                      b.net + Broadcast(Request(n, cur + 1), voters)))
  {
    MayAct(n, cur, 0, authEpoch, count, false);
    Headers(n, cur + 1, 0, cur + 1, count, true);
  }

  lemma RearmStep(b: Bus, n: Id, cur: nat, authEpoch: nat, count: nat, sent: bool)
    requires (n == 2 || n == 3) && n in b.views && b.slotCount == 1
    requires b.views[n] == Member(n, cur, 0, authEpoch, count, sent)
    ensures Steps(b, RearmTimer(n, ENV), Bus(1, b.views[n := Member(n, cur, 0, authEpoch, 0, false)], b.net))
  {
    MayAct(n, cur, 0, authEpoch, count, sent);
  }

  lemma VoteStep(b: Bus, n: Id, cur: nat, lastVote: nat, epoch: nat)
    requires (n == 2 || n == 3) && 1 in b.views && b.slotCount == 1 && b.views[1] == Member(1, cur, lastVote, 0, 0, false)
    requires b.net == [Envelope(1, Request(n, epoch))] && cur <= epoch && lastVote < epoch
    ensures Steps(b, Deliver(0, ENV), Bus(1, b.views[1 := Member(1, epoch, epoch, 0, 0, false)], [Envelope(n, Ack(epoch))]))
  {
    var v, h := b.views[1], b.net[0].packet.hdr;
    MemberOk(1, cur, lastVote, 0, 0, false);
    Headers(1, epoch, lastVote, 0, 0, false);
    Headers(1, epoch, epoch, 0, 0, false);
    var v1 := Member(1, epoch, lastVote, 0, 0, false);
    assert SeeEpochs(v, h) == v1;
    assert v1.slots[0] == Some(1);
    assert GrantsVote(v1, h, true, 0, 0);
    assert CastVote(v1, n, 0) == Member(1, epoch, epoch, 0, 0, false);
  }

  lemma AckStep(b: Bus, n: Id, cur: nat, authEpoch: nat, count: nat, sent: bool, epoch: nat)
    requires (n == 2 || n == 3) && n in b.views && b.slotCount == 1
    requires b.views[n] == Member(n, cur, 0, authEpoch, count, sent)
    requires b.net == [Envelope(n, Ack(epoch))] && authEpoch <= epoch <= cur
    ensures Steps(b, Deliver(0, ENV), Bus(1, b.views[n := Member(n, cur, 0, authEpoch, count + 1, sent)], []))
  {
    var v, h := b.views[n], b.net[0].packet.hdr;
    MemberOk(n, cur, 0, authEpoch, count, sent);
    assert SeeEpochs(v, h) == v;
    assert v.slots[0] == Some(1);
    assert CountsVote(v, h);
  }

  lemma WinStep(b: Bus, n: Id, cur: nat, authEpoch: nat)
    requires (n == 2 || n == 3) && n in b.views && b.slotCount == 1 && b.views[n] == Member(n, cur, 0, authEpoch, 1, true)
    ensures Ok(b.views[n]) && Steps(b, WinTimer(n, ENV), Bus(1, b.views[n := TakeOver(b.views[n])], b.net))
    ensures Wins(b, WinTimer(n, ENV), authEpoch)
  {
    MayAct(n, cur, 0, authEpoch, 1, true);
  }

  // ----------------------------------------------------------------------------- the run

  function V1(cur: nat): View { Member(1, cur, cur, 0, 0, false) }
  function V3(): View { Member(3, 1, 0, 0, 0, false) }
  function Winner(n: Id): View { Member(n, 2, 0, 2, 1, true) }

  function Heir(n: Id): View
    requires n == 2 || n == 3
  {
    MemberOk(n, 2, 0, 2, 1, true);
    TakeOver(Winner(n))
  }

  function B0(): Bus { At(V1(0), Member(2, 0, 0, 0, 0, false), V3(), []) }
  function B1(): Bus { At(V1(0), Member(2, 1, 0, 1, 0, true), V3(), [Envelope(1, Request(2, 1))]) }
  function B2(): Bus { At(V1(1), Member(2, 1, 0, 1, 0, true), V3(), [Envelope(2, Ack(1))]) }
  function B3(): Bus { At(V1(1), Member(2, 1, 0, 1, 0, false), V3(), [Envelope(2, Ack(1))]) }
  function B4(): Bus { At(V1(1), Member(2, 1, 0, 1, 1, false), V3(), []) }
  function B5(): Bus { At(V1(1), Winner(2), V3(), []) }
  function B6(): Bus { At(V1(1), Heir(2), V3(), []) }
  function B7(): Bus { At(V1(1), Heir(2), Member(3, 2, 0, 2, 0, true), [Envelope(1, Request(3, 2))]) }
  function B8(): Bus { At(V1(2), Heir(2), Member(3, 2, 0, 2, 0, true), [Envelope(3, Ack(2))]) }
  function B9(): Bus { At(V1(2), Heir(2), Winner(3), []) }
  function B10(): Bus { At(V1(2), Heir(2), Heir(3), []) }

  // A change of one view.
  lemma Replaced(v1: View, v2: View, v3: View, w: View)
    ensures forall net, net' ::
              && At(v1, v2, v3, net).views[1 := w] == At(w, v2, v3, net').views
              && At(v1, v2, v3, net).views[2 := w] == At(v1, w, v3, net').views
              && At(v1, v2, v3, net).views[3 := w] == At(v1, v2, w, net').views
  {}

  lemma Step0() ensures Steps(B0(), RequestTimer(2, ENV, [1]), B1()) {
    AskStep(B0(), 2, 0, 0, 0, [1]);
    Replaced(V1(0), Member(2, 0, 0, 0, 0, false), V3(), Member(2, 1, 0, 1, 0, true));
    assert [] + Broadcast(Request(2, 1), [1]) == B1().net;
  }
  lemma Step1() ensures Steps(B1(), Deliver(0, ENV), B2()) {
    VoteStep(B1(), 2, 0, 0, 1);
    Replaced(V1(0), Member(2, 1, 0, 1, 0, true), V3(), V1(1));
  }
  lemma Step2() ensures Steps(B2(), RearmTimer(2, ENV), B3()) {
    RearmStep(B2(), 2, 1, 1, 0, true);
    Replaced(V1(1), Member(2, 1, 0, 1, 0, true), V3(), Member(2, 1, 0, 1, 0, false));
  }
  lemma Step3() ensures Steps(B3(), Deliver(0, ENV), B4()) {
    AckStep(B3(), 2, 1, 1, 0, false, 1);
    Replaced(V1(1), Member(2, 1, 0, 1, 0, false), V3(), Member(2, 1, 0, 1, 1, false));
  }
  lemma Step4() ensures Steps(B4(), RequestTimer(2, ENV, []), B5()) {
    AskStep(B4(), 2, 1, 1, 1, []);
    Replaced(V1(1), Member(2, 1, 0, 1, 1, false), V3(), Winner(2));
    assert [] + Broadcast(Request(2, 2), []) == B5().net;
  }
  lemma Step5() ensures Steps(B5(), WinTimer(2, ENV), B6()) && Wins(B5(), WinTimer(2, ENV), 2) {
    WinStep(B5(), 2, 2, 2);
    Replaced(V1(1), Winner(2), V3(), Heir(2));
  }
  lemma Step6() ensures Steps(B6(), RequestTimer(3, ENV, [1]), B7()) {
    AskStep(B6(), 3, 1, 0, 0, [1]);
    Replaced(V1(1), Heir(2), V3(), Member(3, 2, 0, 2, 0, true));
    assert [] + Broadcast(Request(3, 2), [1]) == B7().net;
  }
  lemma Step7() ensures Steps(B7(), Deliver(0, ENV), B8()) {
    VoteStep(B7(), 3, 1, 1, 2);
    Replaced(V1(1), Heir(2), Member(3, 2, 0, 2, 0, true), V1(2));
  }
  lemma Step8() ensures Steps(B8(), Deliver(0, ENV), B9()) {
    AckStep(B8(), 3, 2, 2, 0, true, 2);
    Replaced(V1(2), Heir(2), Member(3, 2, 0, 2, 0, true), Winner(3));
  }
  lemma Step9() ensures Steps(B9(), WinTimer(3, ENV), B10()) && Wins(B9(), WinTimer(3, ENV), 2) {
    WinStep(B9(), 3, 2, 2);
    Replaced(V1(2), Heir(2), Winner(3), Heir(3));
  }

  lemma StartOk()
    ensures Wellformed(B0()) && Epochs(B0()) && B0().net == []
    ensures forall n :: n in B0().views ==> B0().views[n].authCount == 0 && !B0().views[n].authSent
  {
    hide Ok;
    MemberOk(1, 0, 0, 0, 0, false);
    MemberOk(2, 0, 0, 0, 0, false);
    MemberOk(3, 1, 0, 0, 0, false);
  }

  // Two nodes win elections of one epoch, though every vote of that epoch comes from the one
  // master and every majority is of that one.
  ghost predicate Splits(bs: seq<Bus>, acts: seq<Action>, i: nat, j: nat, epoch: nat, masters: set<Id>) {
    && Run(bs, acts) && i < |acts| && j < |acts|
    && (forall k :: 0 <= k < |acts| ==> Electorate(bs[k], acts[k], epoch, masters))
    && Wins(bs[i], acts[i], epoch) && Wins(bs[j], acts[j], epoch) && acts[i].n != acts[j].n
  }

  // So `ClusterBus.BusElectionSafety` is false without its timeliness.
  lemma UntimelyBusSplits()
    ensures exists bs, acts :: Splits(bs, acts, 5, 9, 2, {1})
  {
    Step0(); Step1(); Step2(); Step3(); Step4(); Step5(); Step6(); Step7(); Step8(); Step9();
    StartOk();
    hide *;
    var bs := [B0(), B1(), B2(), B3(), B4(), B5(), B6(), B7(), B8(), B9(), B10()];
    var acts := [RequestTimer(2, ENV, [1]), Deliver(0, ENV), RearmTimer(2, ENV), Deliver(0, ENV),
                 RequestTimer(2, ENV, []), WinTimer(2, ENV), RequestTimer(3, ENV, [1]), Deliver(0, ENV),
                 Deliver(0, ENV), WinTimer(3, ENV)];
    assert forall k :: 0 <= k < |acts| ==> Steps(bs[k], acts[k], bs[k + 1]);
    IsSplit(bs, acts);
  }

  lemma IsSplit(bs: seq<Bus>, acts: seq<Action>)
    requires |acts| == 10 && |bs| == 11 && (forall k :: 0 <= k < |acts| ==> Steps(bs[k], acts[k], bs[k + 1]))
    requires Wellformed(bs[0]) && Epochs(bs[0]) && bs[0].net == []
    requires forall n :: n in bs[0].views ==> bs[0].views[n].authCount == 0 && !bs[0].views[n].authSent
    requires Enabled(bs[5], acts[5]) && Wins(bs[5], acts[5], 2) && Enabled(bs[9], acts[9]) && Wins(bs[9], acts[9], 2)
    requires acts[5].WinTimer? && acts[9].WinTimer? && acts[5].n != acts[9].n
    ensures Splits(bs, acts, 5, 9, 2, {1})
  {
    hide Wellformed, Epochs, Enabled, Next, Electorate;
    forall k | 0 <= k < |acts|
      ensures Enabled(bs[k], acts[k]) && bs[k + 1] == Next(bs[k], acts[k]) && Electorate(bs[k], acts[k], 2, {1})
    {
      assert Steps(bs[k], acts[k], bs[k + 1]);
    }
    assert Run(bs, acts);
  }
}
