/**
 Two protocols of internal/plugins/session.go. Controls that arrive before a session
 is ready wait and are replayed to the writer in order, later ones go to it directly;
 and the acknowledgement of a shutdown meets the end of its send without a lock.

 A call holds the session's lock while it looks at the phase and the writer's while
 it enters the queue, and neither in between. Every method is one critical section,
 so other calls may come between any two of them.
 */
module Session {
  import opened Common
  import opened Controls
  import opened SessionWriter

  datatype SessionPhase = Starting | Replaying | Ready | Stopping | Ended

  /**
   Controls are named by the order in which they arrive. replaying is the one the
   replay loop has taken and waits for; entering are the calls between the two locks.
   */
  datatype SessionState = SessionState(
    phase: SessionPhase, arrived: nat, pending: seq<Request>, replaying: Option<nat>, entering: set<Request>)

  predicate Ascending(ids: seq<nat>) {
    forall i, j | 0 <= i < j < |ids| :: ids[i] < ids[j]
  }

  lemma AscendingNext(ids: seq<nat>, id: nat)
    ensures Ascending(ids + [id]) <==> Ascending(ids) && forall a | a in ids :: a < id
  {
    var more := ids + [id];
    if Ascending(more) {
      forall i, j | 0 <= i < j < |ids| ensures ids[i] < ids[j] { assert more[i] < more[j]; }
      forall a | a in ids ensures a < id {
        var i :| 0 <= i < |ids| && ids[i] == a;
        assert more[i] < more[|ids|];
      }
    } else if Ascending(ids) {
      var i, j :| 0 <= i < j < |more| && more[i] >= more[j];
      assert ids[i] in ids;
    }
  }

  predicate Distinct(ids: seq<nat>) {
    forall i, j | 0 <= i < j < |ids| :: ids[i] != ids[j]
  }

  // ---- Who is where ----

  /** A waiting control has exactly one place: it has its reply, or it is being replayed, or it is pending. */
  predicate OnePlace(s: SessionState, replied: seq<nat>, id: nat) {
    if id in replied then s.replaying != Some(id) && id !in Ids(s.pending)
    else if s.replaying == Some(id) then id !in Ids(s.pending)
    else id in Ids(s.pending)
  }

  ghost predicate Places(s: SessionState, waited: set<nat>, replied: seq<nat>) {
    && (forall id | id in waited :: id < s.arrived && OnePlace(s, replied, id))
    && Distinct(replied) && (forall id | id in replied :: id in waited)
    && Ascending(Ids(s.pending)) && (forall id | id in Ids(s.pending) :: id in waited)
    && (s.replaying.Some? ==> s.replaying.value in waited)
    && (s.phase.Starting? ==> s.replaying.None?)
    && (s.phase.Ready? || s.phase.Ended? ==> s.pending == [] && s.replaying.None?)
  }

  /** A control that has to wait is later than all before it. */
  lemma ArrivesWaiting(s: SessionState, waited: set<nat>, replied: seq<nat>, kind: Kind)
    requires Places(s, waited, replied) && (s.phase.Starting? || s.phase.Replaying?)
    ensures Places(s.(arrived := s.arrived + 1, pending := s.pending + [Tagged(s.arrived, kind)]), waited + {s.arrived}, replied)
  {
    var t := s.(arrived := s.arrived + 1, pending := s.pending + [Tagged(s.arrived, kind)]);
    assert Ids(t.pending) == Ids(s.pending) + [s.arrived];
    AscendingNext(Ids(s.pending), s.arrived);
    assert s.arrived !in waited;
    forall id | id in waited + {s.arrived} ensures OnePlace(t, replied, id) {
      if id in waited { assert OnePlace(s, replied, id); }
    }
  }

  /** A pending control leaves with its reply. */
  lemma PendingLeaves(s: SessionState, waited: set<nat>, replied: seq<nat>, i: nat)
    requires Places(s, waited, replied) && i < |s.pending|
    ensures Places(s.(pending := s.pending[..i] + s.pending[i + 1..]), waited, replied + [s.pending[i].id])
  {
    var less := s.pending[..i] + s.pending[i + 1..];
    var id := s.pending[i].id;
    IdsWithout(s.pending, i);
    RemovedAt(Ids(s.pending), i);
    assert Ids(s.pending)[i] == id && OnePlace(s, replied, id);
    forall other | other in waited ensures OnePlace(s.(pending := less), replied + [id], other) {
      assert OnePlace(s, replied, other);
    }
  }

  lemma IdsWithout(pending: seq<Request>, i: nat)
    requires i < |pending|
    ensures Ids(pending[..i] + pending[i + 1..]) == Ids(pending)[..i] + Ids(pending)[i + 1..]
  {
  }

  lemma RemovedAt(ids: seq<nat>, i: nat)
    requires Ascending(ids) && i < |ids|
    ensures Ascending(ids[..i] + ids[i + 1..])
    ensures forall id :: id in ids[..i] + ids[i + 1..] <==> id in ids && id != ids[i]
  {
    var less := ids[..i] + ids[i + 1..];
    forall id | id in ids && id != ids[i] ensures id in less {
      var j :| 0 <= j < |ids| && ids[j] == id;
      assert less[if j < i then j else j - 1] == id;
    }
  }

  lemma PendingIsTaken(s: SessionState, waited: set<nat>, replied: seq<nat>)
    requires Places(s, waited, replied) && s.pending != [] && s.replaying.None? && s.phase.Replaying?
    ensures Places(s.(pending := s.pending[1..], replaying := Some(s.pending[0].id)), waited, replied)
  {
    var t := s.(pending := s.pending[1..], replaying := Some(s.pending[0].id));
    assert Ids(s.pending)[1..] == Ids(t.pending) && Ids(s.pending)[0] == s.pending[0].id;
    RemovedAt(Ids(s.pending), 0);
    assert Ids(s.pending)[..0] + Ids(s.pending)[1..] == Ids(t.pending);
    forall id | id in waited ensures OnePlace(t, replied, id) {
      assert OnePlace(s, replied, id);
    }
  }

  lemma ReplayIsAnswered(s: SessionState, waited: set<nat>, replied: seq<nat>)
    requires Places(s, waited, replied) && s.replaying.Some?
    ensures Places(s.(replaying := None), waited, replied + [s.replaying.value])
  {
    forall id | id in waited ensures OnePlace(s.(replaying := None), replied + [s.replaying.value], id) {
      assert OnePlace(s, replied, id);
    }
  }

  // ---- In which order controls enter the writer ----

  /** What the replay put into the writer comes first, in the order of arrival. */
  predicate WaitedFirst(accepted: seq<nat>, waited: set<nat>) {
    forall i, j | 0 <= i < j < |accepted| && accepted[j] in waited :: accepted[i] in waited && accepted[i] < accepted[j]
  }

  /** Everything the writer has accepted so far had to wait, and arrived before id. */
  predicate OnlyEarlier(accepted: seq<nat>, waited: set<nat>, id: nat) {
    forall a | a in accepted :: a in waited && a < id
  }

  /** A call between the locks has not entered; if the replay made it, it is alone there and next in order. */
  predicate MayEnter(s: SessionState, waited: set<nat>, accepted: seq<nat>, accepting: bool, w: Request) {
    && w.id < s.arrived && w.id !in accepted
    && (forall v | v in s.entering && v.id == w.id :: v == w)
    && (w.id in waited ==> s.entering == {w} && !s.phase.Ready? && (accepting ==> OnlyEarlier(accepted, waited, w.id)))
    && (s.phase.Starting? || s.phase.Replaying? ==> s.replaying == Some(w.id) && w.id in waited)
  }

  /** Behind a pending control there are only controls that waited and arrived before it. */
  predicate Waits(s: SessionState, waited: set<nat>, accepted: seq<nat>, p: Request) {
    OnlyEarlier(accepted, waited, p.id) && forall w | w in s.entering :: w.id in waited && w.id < p.id
  }

  ghost predicate Order(s: SessionState, waited: set<nat>, accepted: seq<nat>, accepting: bool) {
    && WaitedFirst(accepted, waited)
    && (forall a | a in accepted :: a < s.arrived)
    && (forall w | w in s.entering :: MayEnter(s, waited, accepted, accepting, w))
    && (forall p | p in s.pending :: Waits(s, waited, accepted, p))
    && (s.phase.Starting? || s.phase.Replaying? ==> forall a | a in accepted :: a in waited)
  }

  /** overtaken are the calls that were between the locks when a later one entered. */
  ghost predicate Overtaking(s: SessionState, accepted: seq<nat>, accepting: bool, overtaken: set<nat>, crowded: bool) {
    && (forall id | id in overtaken :: id < s.arrived)
    && (forall p | p in s.pending :: p.id !in overtaken)
    && (forall w | w in s.entering :: w.id in overtaken <==> exists a :: a in accepted && a > w.id)
    && (Ascending(accepted) <==> forall a | a in accepted :: a !in overtaken)
    && (!crowded ==> Ascending(accepted) && (accepting ==> overtaken == {}) && forall v, w | v in s.entering && w in s.entering :: v == w)
  }

  /** Whatever only shrinks what waits, or moves the phase on, keeps the order. */
  lemma OrderSurvives(s: SessionState, t: SessionState, waited: set<nat>, accepted: seq<nat>, accepting: bool, overtaken: set<nat>, crowded: bool)
    requires Order(s, waited, accepted, accepting) && Overtaking(s, accepted, accepting, overtaken, crowded)
    requires t.arrived == s.arrived && t.entering <= s.entering && (forall p | p in t.pending :: p in s.pending)
    requires t.phase.Starting? || t.phase.Replaying? ==> s.phase.Starting? || s.phase.Replaying?
    requires t.phase.Stopping? || t.phase.Ended? || t.entering == {} || (t.phase == s.phase && t.replaying == s.replaying)
    ensures Order(t, waited, accepted, accepting) && Overtaking(t, accepted, accepting, overtaken, crowded)
  {
    forall w | w in t.entering ensures MayEnter(t, waited, accepted, accepting, w) {
      assert MayEnter(s, waited, accepted, accepting, w);
    }
    forall p | p in t.pending ensures Waits(t, waited, accepted, p) {
      assert Waits(s, waited, accepted, p);
    }
  }

  lemma WaitingKeepsOrder(s: SessionState, waited: set<nat>, accepted: seq<nat>, accepting: bool, overtaken: set<nat>, crowded: bool, kind: Kind)
    requires Order(s, waited, accepted, accepting) && Overtaking(s, accepted, accepting, overtaken, crowded)
    requires s.phase.Starting? || s.phase.Replaying?
    requires s.replaying.Some? ==> s.replaying.value in waited
    ensures var t := s.(arrived := s.arrived + 1, pending := s.pending + [Tagged(s.arrived, kind)]);
            Order(t, waited + {s.arrived}, accepted, accepting) && Overtaking(t, accepted, accepting, overtaken, crowded)
  {
    var t := s.(arrived := s.arrived + 1, pending := s.pending + [Tagged(s.arrived, kind)]);
    forall w | w in t.entering ensures MayEnter(t, waited + {s.arrived}, accepted, accepting, w) {
      assert MayEnter(s, waited, accepted, accepting, w);
    }
    forall p | p in t.pending ensures Waits(t, waited + {s.arrived}, accepted, p) {
      if p in s.pending {
        assert Waits(s, waited, accepted, p);
      } else {
        forall w | w in t.entering ensures w.id in waited && w.id < p.id { assert MayEnter(s, waited, accepted, accepting, w); }
      }
    }
  }

  lemma NobodyEnters(s: SessionState, waited: set<nat>, accepted: seq<nat>, accepting: bool)
    requires Order(s, waited, accepted, accepting) && (s.phase.Starting? || s.phase.Replaying?) && s.replaying.None?
    ensures s.entering == {}
  {
    if w :| w in s.entering { assert false; }
  }

  /** The replay's next call stands between the locks. */
  lemma ReplayStepsForward(s: SessionState, waited: set<nat>, accepted: seq<nat>, accepting: bool, overtaken: set<nat>, crowded: bool)
    requires Order(s, waited, accepted, accepting) && Overtaking(s, accepted, accepting, overtaken, crowded)
    requires s.phase.Replaying? && s.replaying.None? && s.pending != [] && Ascending(Ids(s.pending))
    requires forall p | p in s.pending :: p.id in waited && p.id < s.arrived
    ensures var t := s.(pending := s.pending[1..], replaying := Some(s.pending[0].id), entering := s.entering + {s.pending[0]});
            Order(t, waited, accepted, accepting) && Overtaking(t, accepted, accepting, overtaken, crowded)
  {
    var first := s.pending[0];
    var t := s.(pending := s.pending[1..], replaying := Some(first.id), entering := s.entering + {first});
    NobodyEnters(s, waited, accepted, accepting);
    assert first in s.pending && Waits(s, waited, accepted, first);
    forall p | p in t.pending ensures Waits(t, waited, accepted, p) {
      assert p in s.pending && Waits(s, waited, accepted, p);
      var i :| 0 < i < |s.pending| && s.pending[i] == p;
      assert Ids(s.pending)[0] < Ids(s.pending)[i];
    }
  }

  /** A call has seen Ready. */
  lemma ReadyStepsForward(s: SessionState, waited: set<nat>, accepted: seq<nat>, accepting: bool, overtaken: set<nat>, crowded: bool, kind: Kind)
    requires Order(s, waited, accepted, accepting) && Overtaking(s, accepted, accepting, overtaken, crowded)
    requires s.phase.Ready? && s.pending == [] && forall id | id in waited :: id < s.arrived
    ensures var t := s.(arrived := s.arrived + 1, entering := s.entering + {Tagged(s.arrived, kind)});
            Order(t, waited, accepted, accepting) && Overtaking(t, accepted, accepting, overtaken, crowded || s.entering != {})
  {
    var t := s.(arrived := s.arrived + 1, entering := s.entering + {Tagged(s.arrived, kind)});
    forall w | w in t.entering ensures MayEnter(t, waited, accepted, accepting, w) {
      if w in s.entering { assert MayEnter(s, waited, accepted, accepting, w); }
      forall v | v in t.entering && v.id == w.id ensures v == w {
        if v in s.entering { assert MayEnter(s, waited, accepted, accepting, v); }
      }
    }
  }

  /** The calls between the locks that arrived before id. */
  function Passed(entering: set<Request>, id: nat): set<nat> {
    set w | w in entering && w.id < id :: w.id
  }

  /** A call enters the writer's queue and overtakes those between the locks that arrived before it. */
  lemma EnteringKeepsOrder(s: SessionState, waited: set<nat>, accepted: seq<nat>, overtaken: set<nat>, crowded: bool, w: Request)
    requires Order(s, waited, accepted, true) && Overtaking(s, accepted, true, overtaken, crowded) && w in s.entering
    ensures var t := s.(entering := s.entering - {w});
            Order(t, waited, accepted + [w.id], true) && Overtaking(t, accepted + [w.id], true, overtaken + Passed(s.entering, w.id), crowded)
  {
    var t, more := s.(entering := s.entering - {w}), accepted + [w.id];
    assert MayEnter(s, waited, accepted, true, w);
    forall v | v in t.entering ensures MayEnter(t, waited, more, true, v) {
      assert MayEnter(s, waited, accepted, true, v);
    }
    forall p | p in t.pending ensures Waits(t, waited, more, p) {
      assert Waits(s, waited, accepted, p);
    }
    EnteringOvertakes(s, waited, accepted, overtaken, crowded, w);
  }

  lemma EnteringOvertakes(s: SessionState, waited: set<nat>, accepted: seq<nat>, overtaken: set<nat>, crowded: bool, w: Request)
    requires Order(s, waited, accepted, true) && Overtaking(s, accepted, true, overtaken, crowded) && w in s.entering
    ensures Overtaking(s.(entering := s.entering - {w}), accepted + [w.id], true, overtaken + Passed(s.entering, w.id), crowded)
  {
    var more, passed := accepted + [w.id], Passed(s.entering, w.id);
    forall v | v in s.entering ensures MayEnter(s, waited, accepted, true, v) {
    }
    AscendingNext(accepted, w.id);
    assert forall a | a in more :: a in accepted || a == w.id;
    assert forall a | a in accepted :: a in more;
    assert w.id in more;
    forall v | v in s.entering - {w} ensures v.id in overtaken + passed <==> exists a :: a in more && a > v.id {
      assert v.id in passed <==> v.id < w.id;
    }
    assert forall a | a in accepted :: a !in passed;
    assert w.id in overtaken <==> exists a :: a in accepted && a > w.id;
    forall p | p in s.pending ensures p.id !in passed {
      assert Waits(s, waited, accepted, p);
    }
  }

  /** A closed writer asks less. */
  lemma ClosingKeepsOrder(s: SessionState, waited: set<nat>, accepted: seq<nat>, overtaken: set<nat>, crowded: bool, before: bool, after: bool)
    requires Order(s, waited, accepted, before) && Overtaking(s, accepted, before, overtaken, crowded) && (after ==> before)
    ensures Order(s, waited, accepted, after) && Overtaking(s, accepted, after, overtaken, crowded)
  {
    forall w | w in s.entering ensures MayEnter(s, waited, accepted, after, w) {
      assert MayEnter(s, waited, accepted, before, w);
    }
  }

  /** The shutdown, later than every other call, overtakes everything between the locks; the writer then turns that away. */
  lemma ShutdownKeepsOrder(s: SessionState, waited: set<nat>, accepted: seq<nat>, overtaken: set<nat>, crowded: bool, id: nat)
    requires Order(s, waited, accepted, true) && Overtaking(s, accepted, true, overtaken, crowded)
    requires s.pending == [] && !s.phase.Starting? && !s.phase.Replaying?
    requires id < s.arrived && id !in waited && id !in overtaken && Latest(s, accepted, id)
    ensures Order(s, waited, accepted + [id], false)
    ensures Overtaking(s, accepted + [id], false, overtaken + Passed(s.entering, id), crowded)
  {
    var more, passed := accepted + [id], Passed(s.entering, id);
    forall w | w in s.entering ensures MayEnter(s, waited, more, false, w) && w.id in passed && w.id !in accepted {
      assert MayEnter(s, waited, accepted, true, w);
    }
    AscendingNext(accepted, id);
    assert forall a | a in more :: a in accepted || a == id;
    assert forall a | a in accepted :: a in more;
    assert id in more;
    assert forall a | a in accepted :: a !in passed;
  }

  /** Nothing that has entered or is about to arrived as late as id. */
  predicate Latest(s: SessionState, accepted: seq<nat>, id: nat) {
    (forall a | a in accepted :: a < id) && (forall w | w in s.entering :: w.id < id)
  }

  lemma OneMoreArrival(s: SessionState, waited: set<nat>, accepted: seq<nat>, accepting: bool, overtaken: set<nat>, crowded: bool)
    requires Order(s, waited, accepted, accepting) && Overtaking(s, accepted, accepting, overtaken, crowded)
    ensures var t := s.(arrived := s.arrived + 1);
            Order(t, waited, accepted, accepting) && Overtaking(t, accepted, accepting, overtaken, crowded)
  {
    var t := s.(arrived := s.arrived + 1);
    forall w | w in t.entering ensures MayEnter(t, waited, accepted, accepting, w) {
      assert MayEnter(s, waited, accepted, accepting, w);
    }
    forall p | p in t.pending ensures Waits(t, waited, accepted, p) {
      assert Waits(s, waited, accepted, p);
    }
  }

  // ---- What callers are told ----

  /** Only the writer's answer can be a success, and no call is turned away before it has entered. */
  predicate Truthful(s: SessionState, replies: seq<Answer>, refusals: seq<Answer>, accepted: seq<nat>, answers: seq<Answer>) {
    && (forall a | a in replies && a.content.Success? :: a in answers)
    && (forall a | a in refusals :: !a.content.Success? && a.id < s.arrived && a.id !in accepted)
    && (forall a, w | a in refusals && w in s.entering :: a.id != w.id)
    && (forall a, p | a in refusals && p in s.pending :: a.id != p.id)
  }

  predicate Live(phase: SessionPhase) {
    !phase.Stopping? && !phase.Ended?
  }

  /** Unless the session stops, a control that has its reply is through: nothing more becomes of it. */
  predicate Through(s: SessionState, replies: seq<Answer>, accepted: seq<nat>, answers: seq<Answer>) {
    Live(s.phase) ==>
      && (forall w, a | w in s.entering && a in replies :: w.id != a.id)
      && (forall a | a in replies && a.id in accepted :: a in answers)
  }

  lemma MoreAnswers(s: SessionState, replies: seq<Answer>, accepted: seq<nat>, before: seq<Answer>, after: seq<Answer>)
    requires Through(s, replies, accepted, before) && before <= after
    ensures Through(s, replies, accepted, after)
  {
  }

  lemma AnswerIsKept(replies: seq<Answer>, before: seq<Answer>, after: seq<Answer>)
    requires before <= after && forall a | a in replies && a.content.Success? :: a in before
    ensures forall a | a in replies && a.content.Success? :: a in after
  {
  }

  /** One more control has its reply, and is through unless the session stops. */
  lemma OneMoreThrough(s: SessionState, replies: seq<Answer>, accepted: seq<nat>, answers: seq<Answer>, reply: Answer)
    requires Through(s, replies, accepted, answers)
    requires Live(s.phase) ==> (forall w | w in s.entering :: w.id != reply.id) && (reply.id in accepted ==> reply in answers)
    ensures Through(s, replies + [reply], accepted, answers)
  {
  }

  /** A later arrival, and a pending control on its way to the writer, have been told nothing yet. */
  lemma NothingToldYet(s: SessionState, t: SessionState, waited: set<nat>, replies: seq<Answer>, refusals: seq<Answer>,
                       accepted: seq<nat>, answers: seq<Answer>)
    requires Places(s, waited, Ids(replies))
    requires Truthful(s, replies, refusals, accepted, answers) && Through(s, replies, accepted, answers)
    requires t.phase == s.phase && t.arrived >= s.arrived
    requires forall w | w in t.entering :: w in s.entering || w in s.pending || w.id == s.arrived
    requires forall p | p in t.pending :: p in s.pending || p.id == s.arrived
    ensures Truthful(t, replies, refusals, accepted, answers) && Through(t, replies, accepted, answers)
  {
    forall w, a | w in t.entering && a in replies && Live(t.phase) ensures w.id != a.id {
      var j :| 0 <= j < |replies| && replies[j] == a;
      assert Ids(replies)[j] == a.id && a.id in waited;
      if w in s.pending {
        var i :| 0 <= i < |s.pending| && s.pending[i] == w;
        assert Ids(s.pending)[i] == w.id && w.id in waited && OnePlace(s, Ids(replies), w.id);
      }
    }
  }

  /** A request that nobody has waited for enters. */
  lemma OneMoreAccepted(s: SessionState, waited: set<nat>, replies: seq<Answer>, accepted: seq<nat>, answers: seq<Answer>, id: nat)
    requires Places(s, waited, Ids(replies)) && Through(s, replies, accepted, answers) && id !in waited
    ensures Through(s, replies, accepted + [id], answers)
  {
    forall a | a in replies ensures a.id != id {
      var j :| 0 <= j < |replies| && replies[j] == a;
      assert Ids(replies)[j] == a.id;
    }
  }

  lemma NotRefused(refusals: seq<Answer>, id: nat)
    requires id !in Ids(refusals)
    ensures forall a | a in refusals :: a.id != id
  {
    forall a | a in refusals ensures a.id != id {
      var i :| 0 <= i < |refusals| && refusals[i] == a;
      assert Ids(refusals)[i] == a.id;
    }
  }

  /** What is pending has not gone anywhere. */
  lemma PendingIsThrough(s: SessionState, waited: set<nat>, replies: seq<Answer>, accepted: seq<nat>, accepting: bool,
                         answers: seq<Answer>, i: nat, result: Result)
    requires Order(s, waited, accepted, accepting) && Through(s, replies, accepted, answers) && i < |s.pending|
    ensures Through(s, replies + [Tagged(s.pending[i].id, result)], accepted, answers)
  {
    assert Waits(s, waited, accepted, s.pending[i]);
    OneMoreThrough(s, replies, accepted, answers, Tagged(s.pending[i].id, result));
  }

  lemma EntererIsKnown(s: SessionState, waited: set<nat>, accepted: seq<nat>, accepting: bool, w: Request)
    requires Order(s, waited, accepted, accepting) && w in s.entering
    ensures w.id < s.arrived && w.id !in accepted && forall v | v in s.entering && v != w :: v.id != w.id
  {
    assert MayEnter(s, waited, accepted, accepting, w);
  }

  lemma PendingIsKnown(s: SessionState, waited: set<nat>, replied: seq<nat>)
    requires Places(s, waited, replied)
    ensures forall p | p in s.pending :: p.id in waited && p.id < s.arrived
    ensures forall i, j | 0 <= i < j < |s.pending| :: s.pending[i].id < s.pending[j].id
  {
    forall p | p in s.pending ensures p.id in waited && p.id < s.arrived {
      var i :| 0 <= i < |s.pending| && s.pending[i] == p;
      assert Ids(s.pending)[i] == p.id && p.id in Ids(s.pending);
    }
    forall i, j | 0 <= i < j < |s.pending| ensures s.pending[i].id < s.pending[j].id {
      assert Ids(s.pending)[i] < Ids(s.pending)[j];
    }
  }

  /** A call that leaves the way to the writer unheard is told so. */
  lemma RefusalIsTruthful(s: SessionState, waited: set<nat>, accepted: seq<nat>, accepting: bool,
                          replies: seq<Answer>, refusals: seq<Answer>, answers: seq<Answer>, w: Request, result: Result)
    requires Order(s, waited, accepted, accepting) && w in s.entering && result != Success
    requires Truthful(s, replies, refusals, accepted, answers)
    ensures Truthful(s.(entering := s.entering - {w}), replies, refusals + [Tagged(w.id, result)], accepted, answers)
  {
    EntererIsKnown(s, waited, accepted, accepting, w);
    forall p | p in s.pending ensures p.id != w.id {
      assert Waits(s, waited, accepted, p);
    }
  }

  /** A call that has entered leaves the order as it must be, whether or not the writer closes behind it. */
  lemma Entered(s: SessionState, waited: set<nat>, accepted: seq<nat>, overtaken: set<nat>, crowded: bool, w: Request, accepting: bool)
    requires Order(s, waited, accepted, true) && Overtaking(s, accepted, true, overtaken, crowded) && w in s.entering
    ensures var t, more := s.(entering := s.entering - {w}), accepted + [w.id];
            Order(t, waited, more, accepting) && Overtaking(t, more, accepting, overtaken + Passed(s.entering, w.id), crowded)
  {
    EnteringKeepsOrder(s, waited, accepted, overtaken, crowded, w);
    ClosingKeepsOrder(s.(entering := s.entering - {w}), waited, accepted + [w.id], overtaken + Passed(s.entering, w.id), crowded, true, accepting);
  }

  lemma LaterArrival(s: SessionState, waited: set<nat>, replied: seq<nat>)
    requires Places(s, waited, replied)
    ensures Places(s.(arrived := s.arrived + 1), waited, replied)
  {
    forall id | id in waited ensures OnePlace(s.(arrived := s.arrived + 1), replied, id) {
      assert OnePlace(s, replied, id);
    }
  }

  /** The calls between the locks and the phase have no part in who waits where. */
  lemma SamePlaces(s: SessionState, t: SessionState, waited: set<nat>, replied: seq<nat>)
    requires Places(s, waited, replied)
    requires t.arrived == s.arrived && t.pending == s.pending && t.replaying == s.replaying
    requires t.phase == s.phase || (t.pending == [] && t.replaying.None?) || t.phase.Stopping? || (t.phase.Replaying? && s.phase.Starting?)
    ensures Places(t, waited, replied)
  {
    forall id | id in waited ensures OnePlace(t, replied, id) {
      assert OnePlace(s, replied, id);
    }
  }

  lemma IdsNext(replies: seq<Answer>, reply: Answer)
    ensures Ids(replies + [reply]) == Ids(replies) + [reply.id]
  {
  }

  /** Everything a session keeps true of itself, whatever the interleaving. */
  ghost predicate Sound(s: SessionState, waited: set<nat>, replies: seq<Answer>, refusals: seq<Answer>, accepted: seq<nat>,
                        answers: seq<Answer>, accepting: bool, overtaken: set<nat>, crowded: bool) {
    && Places(s, waited, Ids(replies))
    && Order(s, waited, accepted, accepting) && Overtaking(s, accepted, accepting, overtaken, crowded)
    && Truthful(s, replies, refusals, accepted, answers) && Through(s, replies, accepted, answers)
  }

  lemma WaitingIsSound(s: SessionState, waited: set<nat>, replies: seq<Answer>, refusals: seq<Answer>, accepted: seq<nat>,
                       answers: seq<Answer>, accepting: bool, overtaken: set<nat>, crowded: bool, kind: Kind)
    requires Sound(s, waited, replies, refusals, accepted, answers, accepting, overtaken, crowded)
    requires s.phase.Starting? || s.phase.Replaying?
    ensures Sound(s.(arrived := s.arrived + 1, pending := s.pending + [Tagged(s.arrived, kind)]), waited + {s.arrived},
                  replies, refusals, accepted, answers, accepting, overtaken, crowded)
  {
    var t := s.(arrived := s.arrived + 1, pending := s.pending + [Tagged(s.arrived, kind)]);
    ArrivesWaiting(s, waited, Ids(replies), kind);
    WaitingKeepsOrder(s, waited, accepted, accepting, overtaken, crowded, kind);
    NothingToldYet(s, t, waited, replies, refusals, accepted, answers);
  }

  lemma SteppingForwardIsSound(s: SessionState, waited: set<nat>, replies: seq<Answer>, refusals: seq<Answer>, accepted: seq<nat>,
                               answers: seq<Answer>, accepting: bool, overtaken: set<nat>, crowded: bool, kind: Kind)
    requires Sound(s, waited, replies, refusals, accepted, answers, accepting, overtaken, crowded) && s.phase.Ready?
    ensures Sound(s.(arrived := s.arrived + 1, entering := s.entering + {Tagged(s.arrived, kind)}), waited,
                  replies, refusals, accepted, answers, accepting, overtaken, crowded || s.entering != {})
  {
    var t := s.(arrived := s.arrived + 1, entering := s.entering + {Tagged(s.arrived, kind)});
    ReadyStepsForward(s, waited, accepted, accepting, overtaken, crowded, kind);
    LaterArrival(s, waited, Ids(replies));
    SamePlaces(s.(arrived := s.arrived + 1), t, waited, Ids(replies));
    NothingToldYet(s, t, waited, replies, refusals, accepted, answers);
  }

  lemma TakingIsSound(s: SessionState, waited: set<nat>, replies: seq<Answer>, refusals: seq<Answer>, accepted: seq<nat>,
                      answers: seq<Answer>, accepting: bool, overtaken: set<nat>, crowded: bool)
    requires Sound(s, waited, replies, refusals, accepted, answers, accepting, overtaken, crowded)
    requires s.phase.Replaying? && s.replaying.None? && s.pending != []
    ensures Sound(s.(pending := s.pending[1..], replaying := Some(s.pending[0].id), entering := s.entering + {s.pending[0]}), waited,
                  replies, refusals, accepted, answers, accepting, overtaken, crowded)
  {
    var first := s.pending[0];
    var t := s.(pending := s.pending[1..], replaying := Some(first.id), entering := s.entering + {first});
    PendingIsTaken(s, waited, Ids(replies));
    SamePlaces(s.(pending := s.pending[1..], replaying := Some(first.id)), t, waited, Ids(replies));
    PendingIsKnown(s, waited, Ids(replies));
    ReplayStepsForward(s, waited, accepted, accepting, overtaken, crowded);
    NothingToldYet(s, t, waited, replies, refusals, accepted, answers);
  }

  lemma MovingOnIsSound(s: SessionState, waited: set<nat>, replies: seq<Answer>, refusals: seq<Answer>, accepted: seq<nat>,
                        answers: seq<Answer>, accepting: bool, overtaken: set<nat>, crowded: bool, phase: SessionPhase)
    requires Sound(s, waited, replies, refusals, accepted, answers, accepting, overtaken, crowded) && MayMoveTo(s, phase)
    ensures Sound(s.(phase := phase), waited, replies, refusals, accepted, answers, accepting, overtaken, crowded)
  {
    OrderSurvives(s, s.(phase := phase), waited, accepted, accepting, overtaken, crowded);
    SamePlaces(s, s.(phase := phase), waited, Ids(replies));
  }

  predicate MayMoveTo(s: SessionState, phase: SessionPhase) {
    || phase.Stopping?
    || (phase.Replaying? && s.phase.Starting? && s.entering == {})
    || (phase.Ready? && s.phase.Replaying? && s.entering == {} && s.pending == [] && s.replaying.None?)
    || (phase.Ended? && s.pending == [] && s.replaying.None?)
  }

  /** The replayed control gets its reply; unless the session stops, only when it is through. */
  lemma AnsweringIsSound(s: SessionState, waited: set<nat>, replies: seq<Answer>, refusals: seq<Answer>, accepted: seq<nat>,
                         answers: seq<Answer>, accepting: bool, overtaken: set<nat>, crowded: bool, result: Result)
    requires Sound(s, waited, replies, refusals, accepted, answers, accepting, overtaken, crowded) && s.replaying.Some?
    requires Live(s.phase) ==> forall w | w in s.entering :: w.id != s.replaying.value
    requires Live(s.phase) && s.replaying.value in accepted ==> Tagged(s.replaying.value, result) in answers
    requires result == Success ==> Tagged(s.replaying.value, result) in answers
    ensures Sound(s.(replaying := None), waited, replies + [Tagged(s.replaying.value, result)], refusals, accepted, answers,
                  accepting, overtaken, crowded)
  {
    OnlyTheReplayEnters(s, waited, accepted, accepting);
    ReplayIsAnswered(s, waited, Ids(replies));
    OneMoreThrough(s, replies, accepted, answers, Tagged(s.replaying.value, result));
    OrderSurvives(s, s.(replaying := None), waited, accepted, accepting, overtaken, crowded);
    IdsNext(replies, Tagged(s.replaying.value, result));
  }

  datatype Admission = MustWait | SawReady | TurnedAway(error: ControlError)

  class ProcessSession {
    const capacity: nat
    const writer: Writer
    var state: SessionState

    /** Which controls had to wait, the replies to them, and the calls that did not enter the writer. */
    var waited: set<nat>
    var replies: seq<Answer>
    var refusals: seq<Answer>

    /** Which calls were overtaken between the locks, and whether there were ever two of them there. */
    ghost var overtaken: set<nat>
    ghost var crowded: bool

    ghost predicate Valid()
      reads this, writer
    {
      && capacity > 0 && writer.Valid()
      && Sound(state, waited, replies, refusals, writer.accepted, writer.answers, writer.state.accepting, overtaken, crowded)
    }

    constructor (initial: ControlState, capacity: nat)
      ensures Valid() && fresh(writer) && writer.initial == initial
      ensures state == SessionState(Starting, 0, [], None, {})
      ensures writer.state == WriterState(initial, true, [], Receiving, false)
      ensures writer.accepted == [] && writer.answers == [] && writer.wire == []
      ensures this.capacity == writer.capacity == if capacity < 1 then 1 else capacity
      ensures waited == {} && replies == [] && refusals == [] && overtaken == {} && !crowded
    {
      this.capacity := if capacity < 1 then 1 else capacity;
      writer := new Writer(initial, capacity);
      state := SessionState(Starting, 0, [], None, {});
      waited, replies, refusals := {}, [], [];
      overtaken, crowded := {}, false;
    }

    /** A call under the session's lock: its control waits, or it has seen that the session is ready, or it is turned away. */
    method Control(kind: Kind) returns (r: Admission)
      requires Valid()
      modifies this`state, this`waited, this`crowded
      ensures Valid()
      ensures r == match old(state).phase
                   case Starting | Replaying => if |old(state).pending| >= capacity then TurnedAway(ControlBackpressure) else MustWait
                   case Ready => SawReady
                   case _ => TurnedAway(InvalidState)
      ensures r == MustWait ==>
        state == old(state).(arrived := old(state).arrived + 1, pending := old(state).pending + [Tagged(old(state).arrived, kind)])
      ensures r == SawReady ==>
        state == old(state).(arrived := old(state).arrived + 1, entering := old(state).entering + {Tagged(old(state).arrived, kind)})
      ensures r.TurnedAway? ==> state == old(state)
      ensures waited == if r == MustWait then old(waited) + {old(state).arrived} else old(waited)
      ensures crowded <==> old(crowded) || (r == SawReady && old(state).entering != {})
    {
      match state.phase {
        case Starting | Replaying =>
          if |state.pending| < capacity {
            Wait(kind);
            r := MustWait;
          } else {
            r := TurnedAway(ControlBackpressure);
          }
        case Ready =>
          StepForward(kind);
          r := SawReady;
        case _ => r := TurnedAway(InvalidState);
      }
    }

    method Wait(kind: Kind)
      requires Valid() && (state.phase.Starting? || state.phase.Replaying?)
      modifies this`state, this`waited
      ensures Valid()
      ensures state == old(state).(arrived := old(state).arrived + 1, pending := old(state).pending + [Tagged(old(state).arrived, kind)])
      ensures waited == old(waited) + {old(state).arrived}
    {
      var control := Tagged(state.arrived, kind);
      WaitingIsSound(state, waited, replies, refusals, writer.accepted, writer.answers, writer.state.accepting, overtaken, crowded, kind);
      waited := waited + {control.id};
      state := state.(arrived := control.id + 1, pending := state.pending + [control]);
    }

    method StepForward(kind: Kind)
      requires Valid() && state.phase.Ready?
      modifies this`state, this`crowded
      ensures Valid()
      ensures state == old(state).(arrived := old(state).arrived + 1, entering := old(state).entering + {Tagged(old(state).arrived, kind)})
      ensures crowded <==> old(crowded) || old(state).entering != {}
    {
      var control := Tagged(state.arrived, kind);
      SteppingForwardIsSound(state, waited, replies, refusals, writer.accepted, writer.answers, writer.state.accepting, overtaken, crowded, kind);
      crowded := crowded || state.entering != {};
      state := state.(arrived := control.id + 1, entering := state.entering + {control});
    }

    /** A call under the writer's lock: it enters the queue, past any earlier ones that are still on their way, or is refused. */
    method Enter(w: Request) returns (r: Result)
      requires Valid() && w in state.entering
      modifies this`state, this`refusals, this`overtaken, writer`state, writer`accepted
      ensures Valid() && state == old(state).(entering := old(state).entering - {w})
      ensures r == (if !old(writer.state).accepting then Failed(InvalidState)
                    else if |old(writer.state).queue| >= writer.capacity then Failed(ControlBackpressure) else Success)
      ensures r == Success ==> writer.accepted == old(writer.accepted) + [w.id] && refusals == old(refusals)
      ensures r == Success ==> overtaken == old(overtaken) + Passed(old(state).entering, w.id)
      ensures r == Success ==> writer.state == old(writer.state).(queue := old(writer.state).queue + [w], accepting := w.content != ShutdownRequest)
      ensures r != Success ==> writer.accepted == old(writer.accepted) && writer.state == old(writer.state)
      ensures r != Success ==> overtaken == old(overtaken) && refusals == old(refusals) + [Tagged(w.id, r)]
    {
      r := writer.Control(w);
      if r == Success {
        RecordEntry(w, old(writer.accepted));
      } else {
        TurnAway(w, r);
      }
    }

    /** The writer has accepted the call. */
    method RecordEntry(w: Request, ghost before: seq<nat>)
      requires capacity > 0 && writer.Valid() && w in state.entering && writer.accepted == before + [w.id]
      requires Places(state, waited, Ids(replies)) && Truthful(state, replies, refusals, before, writer.answers)
      requires Through(state, replies, before, writer.answers)
      requires Order(state, waited, before, true) && Overtaking(state, before, true, overtaken, crowded)
      modifies this`state, this`overtaken
      ensures Valid() && state == old(state).(entering := old(state).entering - {w})
      ensures overtaken == old(overtaken) + Passed(old(state).entering, w.id)
    {
      Entered(state, waited, before, overtaken, crowded, w, writer.state.accepting);
      SamePlaces(state, state.(entering := state.entering - {w}), waited, Ids(replies));
      overtaken := overtaken + Passed(state.entering, w.id);
      state := state.(entering := state.entering - {w});
    }

    method TurnAway(w: Request, result: Result)
      requires Valid() && w in state.entering && result != Success
      modifies this`state, this`refusals
      ensures Valid() && state == old(state).(entering := old(state).entering - {w})
      ensures refusals == old(refusals) + [Tagged(w.id, result)]
    {
      var next := state.(entering := state.entering - {w});
      SamePlaces(state, next, waited, Ids(replies));
      RefusalIsTruthful(state, waited, writer.accepted, writer.state.accepting, replies, refusals, writer.answers, w, result);
      OrderSurvives(state, next, waited, writer.accepted, writer.state.accepting, overtaken, crowded);
      refusals := refusals + [Tagged(w.id, result)];
      state := next;
    }

    /** A caller between the locks gives up; the replay's calls have no deadline. */
    method Abandon(w: Request)
      requires Valid() && w in state.entering && w.id !in waited
      modifies this`state, this`refusals
      ensures Valid() && state == old(state).(entering := old(state).entering - {w})
      ensures refusals == old(refusals) + [Tagged(w.id, Failed(ContextDone))]
    {
      TurnAway(w, Failed(ContextDone));
    }

    /** `shutdownProcess`: the session's own request for a shutdown. */
    method Shutdown() returns (r: Result)
      requires Valid() && state.pending == [] && !state.phase.Starting? && !state.phase.Replaying?
      modifies this`state, this`overtaken, writer`state, writer`accepted
      ensures Valid() && state == old(state).(arrived := old(state).arrived + 1)
      ensures r == Success ==> writer.accepted == old(writer.accepted) + [old(state).arrived] && !writer.state.accepting
      ensures r == Success ==>
        writer.state == old(writer.state).(queue := old(writer.state).queue + [Tagged(old(state).arrived, ShutdownRequest)], accepting := false)
      ensures r != Success ==> writer.accepted == old(writer.accepted) && writer.state == old(writer.state)
    {
      var id := state.arrived;
      ArriveUnheard();
      r := writer.Control(Tagged(id, ShutdownRequest));
      if r == Success { RecordShutdown(id, old(writer.accepted)); }
    }

    /** The writer has accepted the shutdown. */
    method RecordShutdown(id: nat, ghost before: seq<nat>)
      requires capacity > 0 && writer.Valid() && writer.accepted == before + [id] && !writer.state.accepting
      requires Places(state, waited, Ids(replies)) && Truthful(state, replies, refusals, before, writer.answers)
      requires Through(state, replies, before, writer.answers)
      requires Order(state, waited, before, true) && Overtaking(state, before, true, overtaken, crowded)
      requires state.pending == [] && !state.phase.Starting? && !state.phase.Replaying?
      requires id < state.arrived && id !in waited && id !in overtaken && Latest(state, before, id) && id !in Ids(refusals)
      modifies this`overtaken
      ensures Valid()
    {
      ShutdownKeepsOrder(state, waited, before, overtaken, crowded, id);
      NotRefused(refusals, id);
      OneMoreAccepted(state, waited, replies, before, writer.answers, id);
      overtaken := overtaken + Passed(state.entering, id);
    }

    /** The session makes a request of its own. */
    method ArriveUnheard()
      requires Valid()
      modifies this`state
      ensures Valid() && state == old(state).(arrived := old(state).arrived + 1)
      ensures Latest(state, writer.accepted, old(state).arrived) && old(state).arrived !in waited && old(state).arrived !in overtaken
      ensures old(state).arrived !in Ids(refusals)
    {
      OneMoreArrival(state, waited, writer.accepted, writer.state.accepting, overtaken, crowded);
      LaterArrival(state, waited, Ids(replies));
      state := state.(arrived := state.arrived + 1);
    }

    /** The writer's goroutine takes one step. */
    method WriterStep(sendOk: bool) returns (ghost dealt: Option<Request>)
      requires Valid() && !writer.Idle()
      modifies writer
      ensures Valid() && writer.accepted == old(writer.accepted) && old(writer.answers) <= writer.answers
      ensures forall r | Holds(writer.state, r) :: Holds(old(writer.state), r)
      ensures dealt.None? ==> writer.answers == old(writer.answers) && writer.wire == old(writer.wire)
      ensures dealt.Some? ==> Holds(old(writer.state), dealt.value) && |writer.answers| == |old(writer.answers)| + 1
      ensures dealt.Some? ==> Answers(writer.initial, old(writer.wire), dealt.value, writer.answers[|old(writer.answers)|], writer.wire)
    {
      ghost var accepting := writer.state.accepting;
      dealt := writer.Step(sendOk);
      MoreAnswers(state, replies, writer.accepted, old(writer.answers), writer.answers);
      AnswerIsKept(replies, old(writer.answers), writer.answers);
      ClosingKeepsOrder(state, waited, writer.accepted, overtaken, crowded, accepting, writer.state.accepting);
    }

    /** `removePendingControl`: a caller gives up, unless its control is no longer pending. */
    method Cancel(id: nat) returns (removed: bool)
      requires Valid()
      modifies this`state, this`replies
      ensures Valid()
      ensures removed <==> id in Ids(old(state).pending)
      ensures removed ==> replies == old(replies) + [Tagged(id, Failed(ContextDone))] && id !in Ids(state.pending)
      ensures !removed ==> state == old(state) && replies == old(replies)
      ensures state == old(state).(pending := state.pending) && forall p | p in state.pending :: p in old(state).pending
    {
      for index := 0 to |state.pending|
        invariant Valid() && state == old(state) && replies == old(replies)
        invariant id !in Ids(state.pending)[..index]
      {
        if state.pending[index].id == id {
          RemovedAt(Ids(state.pending), index);
          IdsWithout(state.pending, index);
          assert Ids(state.pending)[index] == id;
          ReplyToPending(index, Failed(ContextDone));
          return true;
        }
      }
      return false;
    }

    method ReplyToPending(index: nat, result: Result)
      requires Valid() && index < |state.pending| && result != Success
      modifies this`state, this`replies
      ensures Valid() && state == old(state).(pending := old(state).pending[..index] + old(state).pending[index + 1..])
      ensures replies == old(replies) + [Tagged(old(state).pending[index].id, result)]
    {
      var reply := Tagged(state.pending[index].id, result);
      var next := state.(pending := state.pending[..index] + state.pending[index + 1..]);
      PendingLeaves(state, waited, Ids(replies), index);
      PendingIsThrough(state, waited, replies, writer.accepted, writer.state.accepting, writer.answers, index, result);
      OrderSurvives(state, next, waited, writer.accepted, writer.state.accepting, overtaken, crowded);
      IdsNext(replies, reply);
      replies := replies + [reply];
      state := next;
    }

    /** `rejectPendingLocked`: every pending control is told that the session stops. */
    method RejectPending()
      requires Valid()
      modifies this`state, this`replies
      ensures Valid() && state == old(state).(pending := [])
      ensures |replies| == |old(replies)| + |old(state).pending|
    {
      while state.pending != []
        invariant Valid() && state == old(state).(pending := state.pending)
        invariant |replies| + |state.pending| == |old(replies)| + |old(state).pending|
        decreases |state.pending|
      {
        ReplyToPending(0, Failed(InvalidState));
      }
    }

    /** The connection is up: the replay begins, unless the session was stopped meanwhile. */
    method BeginReplay()
      requires Valid() && state.replaying.None?
      modifies this`state, this`replies
      ensures Valid()
      ensures old(state).phase.Starting? ==> state == old(state).(phase := Replaying) && replies == old(replies)
      ensures !old(state).phase.Starting? ==> state == old(state).(pending := [])
    {
      if state.phase.Starting? {
        NobodyEnters(state, waited, writer.accepted, writer.state.accepting);
        MoveTo(Replaying);
      } else {
        RejectPending();
      }
    }

    /** A phase change that the invariants allow. */
    method MoveTo(phase: SessionPhase)
      requires Valid() && MayMoveTo(state, phase)
      modifies this`state
      ensures Valid() && state == old(state).(phase := phase)
    {
      MovingOnIsSound(state, waited, replies, refusals, writer.accepted, writer.answers, writer.state.accepting, overtaken, crowded, phase);
      state := state.(phase := phase);
    }

    /** The replay loop's next turn: it takes the first pending control, or the session is ready, or it has stopped. */
    method ReplayNext()
      requires Valid() && state.replaying.None?
      modifies this`state, this`replies
      ensures Valid()
      ensures !old(state).phase.Replaying? ==> state == old(state).(pending := [])
      ensures old(state).phase.Replaying? && old(state).pending == [] ==> state == old(state).(phase := Ready) && replies == old(replies)
      ensures old(state).phase.Replaying? && old(state).pending != [] ==>
        var first := old(state).pending[0];
        replies == old(replies)
        && state == old(state).(pending := old(state).pending[1..], replaying := Some(first.id), entering := old(state).entering + {first})
    {
      if !state.phase.Replaying? {
        RejectPending();
      } else if state.pending == [] {
        NobodyEnters(state, waited, writer.accepted, writer.state.accepting);
        MoveTo(Ready);
      } else {
        TakePending();
      }
    }

    method TakePending()
      requires Valid() && state.phase.Replaying? && state.replaying.None? && state.pending != []
      modifies this`state
      ensures Valid()
      ensures var first := old(state).pending[0];
        state == old(state).(pending := old(state).pending[1..], replaying := Some(first.id), entering := old(state).entering + {first})
    {
      var first := state.pending[0];
      TakingIsSound(state, waited, replies, refusals, writer.accepted, writer.answers, writer.state.accepting, overtaken, crowded);
      state := state.(pending := state.pending[1..], replaying := Some(first.id), entering := state.entering + {first});
    }

    /** The call's outcome, from the writer or on the way to it. */
    predicate CameBack(id: nat, result: Result)
      reads this, writer
    {
      Tagged(id, result) in refusals || Tagged(id, result) in writer.answers
    }

    /** What the replayed call came back with is passed on to its caller. */
    method ReplayEnds(result: Result)
      requires Valid() && state.replaying.Some? && CameBack(state.replaying.value, result)
      modifies this`state, this`replies
      ensures Valid() && state == old(state).(replaying := None)
      ensures replies == old(replies) + [Tagged(old(state).replaying.value, result)]
    {
      BackFromTheWriter(state.replaying.value, result);
      AnswerReplay(result);
    }

    /** A call that came back is no longer between the locks. */
    lemma BackFromTheWriter(id: nat, result: Result)
      requires Valid() && CameBack(id, result)
      ensures forall w | w in state.entering :: w.id != id
      ensures result == Success ==> Tagged(id, result) in writer.answers
      ensures id in writer.accepted ==> Tagged(id, result) in writer.answers
    {
      LedgerPrefix(writer.state, writer.accepted, writer.answers);
      if Tagged(id, result) in writer.answers {
        var i :| 0 <= i < |writer.answers| && writer.answers[i] == Tagged(id, result);
        assert Ids(writer.answers)[i] == id && writer.accepted[i] == id;
      }
      forall w | w in state.entering ensures w.id != id {
        EntererIsKnown(state, waited, writer.accepted, writer.state.accepting, w);
      }
    }

    method AnswerReplay(result: Result)
      requires Valid() && state.replaying.Some?
      requires Live(state.phase) ==> forall w | w in state.entering :: w.id != state.replaying.value
      requires Live(state.phase) && state.replaying.value in writer.accepted ==> Tagged(state.replaying.value, result) in writer.answers
      requires result == Success ==> Tagged(state.replaying.value, result) in writer.answers
      modifies this`state, this`replies
      ensures Valid() && state == old(state).(replaying := None)
      ensures replies == old(replies) + [Tagged(old(state).replaying.value, result)]
    {
      AnsweringIsSound(state, waited, replies, refusals, writer.accepted, writer.answers, writer.state.accepting, overtaken, crowded, result);
      replies := replies + [Tagged(state.replaying.value, result)];
      state := state.(replaying := None);
    }

    /** `completeReplayControl` after a failure: the call has not come back in time, and may yet enter the writer. */
    method ReplayTimesOut()
      requires Valid() && state.replaying.Some? && !state.phase.Replaying?
      modifies this`state, this`replies
      ensures Valid() && state == old(state).(replaying := None)
      ensures replies == old(replies) + [Tagged(old(state).replaying.value, Failed(InvalidState))]
    {
      AnswerReplay(Failed(InvalidState));
    }

    /** `Stop` only moves the phase; the loop notices later. */
    method Stop()
      requires Valid()
      modifies this`state
      ensures Valid() && state == old(state).(phase := if old(state).phase.Ended? then Ended else Stopping)
    {
      if !state.phase.Ended? { MoveTo(Stopping); }
    }

    /** `beginReplayStop`: a worker failed during the replay. */
    method BeginReplayStop()
      requires Valid()
      modifies this`state, this`replies
      ensures Valid() && state == old(state).(phase := if old(state).phase.Ended? then Ended else Stopping, pending := [])
    {
      Stop();
      RejectPending();
    }

    /** The session's goroutine returns. */
    method End()
      requires Valid() && state.replaying.None?
      modifies this`state, this`replies
      ensures Valid() && state == old(state).(phase := Ended, pending := [])
    {
      RejectPending();
      MoveTo(Ended);
    }
  }

  /** While the replay runs, only its own call can be between the locks. */
  lemma OnlyTheReplayEnters(s: SessionState, waited: set<nat>, accepted: seq<nat>, accepting: bool)
    requires Order(s, waited, accepted, accepting)
    ensures s.phase.Starting? || s.phase.Replaying? ==> forall w | w in s.entering :: s.replaying == Some(w.id)
  {
  }

  datatype SessionStep =
    | Call(kind: Kind) | EnterWriter(w: Request) | AbandonCall(w: Request) | GiveUp(id: nat)
    | Connected | ReplayTurn | ReplayBack(result: Result) | ReplayTimeout
    | StopCall | WorkerFails | ShutDown | WriterMoves(sendOk: bool) | Return

  /** The request waits, or is between the locks, or is in the writer's hands. */
  predicate OnItsWay(s: SessionState, writer: WriterState, r: Request) {
    r in s.pending || r in s.entering || Holds(writer, r)
  }

  /** No request comes to be on its way but a shutdown, and a session that stops keeps stopping. */
  ghost predicate BringsNothing(s: SessionState, before: WriterState, t: SessionState, after: WriterState) {
    && (Live(t.phase) ==> Live(s.phase))
    && (forall w | w in t.entering :: w in s.entering || w in s.pending)
    && (forall r | OnItsWay(t, after, r) :: OnItsWay(s, before, r) || (r.content == ShutdownRequest && s.arrived <= r.id))
    && s.arrived <= t.arrived
  }

  lemma PendingGoes(s: SessionState, t: SessionState, writer: WriterState)
    requires s.arrived <= t.arrived && (Live(t.phase) ==> Live(s.phase)) && forall p | p in t.pending :: p in s.pending
    requires forall w | w in t.entering :: w in s.entering || w in s.pending
    ensures BringsNothing(s, writer, t, writer)
  {
  }

  lemma EntererMoves(s: SessionState, before: WriterState, w: Request, after: WriterState)
    requires w in s.entering
    requires after == before || after == before.(queue := before.queue + [w], accepting := after.accepting)
    ensures BringsNothing(s, before, s.(entering := s.entering - {w}), after)
  {
  }

  lemma ShutdownArrives(s: SessionState, before: WriterState, id: nat, after: WriterState)
    requires id == s.arrived
    requires after == before || after == before.(queue := before.queue + [Tagged(id, ShutdownRequest)], accepting := after.accepting)
    ensures BringsNothing(s, before, s.(arrived := s.arrived + 1), after)
  {
  }

  /** A call between the locks goes on to the writer. */
  method EnterStep(session: ProcessSession, w: Request)
    requires session.Valid() && w in session.state.entering
    modifies session, session.writer`state, session.writer`accepted
    ensures session.Valid() && session.crowded == old(session.crowded) && session.waited == old(session.waited)
    ensures BringsNothing(old(session.state), old(session.writer.state), session.state, session.writer.state)
  {
    var r := session.Enter(w);
    EntererMoves(old(session.state), old(session.writer.state), w, session.writer.state);
  }

  /** A caller gives up, on its way to the writer or while its control is pending. */
  method GiveUpStep(session: ProcessSession, step: SessionStep)
    requires session.Valid() && (step.AbandonCall? || step.GiveUp?)
    modifies session
    ensures session.Valid() && session.crowded == old(session.crowded) && session.waited == old(session.waited)
    ensures BringsNothing(old(session.state), session.writer.state, session.state, session.writer.state)
  {
    match step {
      case AbandonCall(w) => if w in session.state.entering && w.id !in session.waited { session.Abandon(w); }
      case GiveUp(id) => var removed := session.Cancel(id);
    }
    PendingGoes(old(session.state), session.state, session.writer.state);
  }

  /** A step of the session's goroutine before the session is ready. */
  method ReplayStep(session: ProcessSession, step: SessionStep)
    requires session.Valid() && (step.Connected? || step.ReplayTurn? || step.ReplayBack? || step.ReplayTimeout?)
    modifies session
    ensures session.Valid() && session.crowded == old(session.crowded) && session.waited == old(session.waited)
    ensures BringsNothing(old(session.state), session.writer.state, session.state, session.writer.state)
  {
    var idle := session.state.replaying.None?;
    match step {
      case Connected => if idle { session.BeginReplay(); }
      case ReplayTurn => if idle { session.ReplayNext(); }
      case ReplayBack(result) => if !idle && session.CameBack(session.state.replaying.value, result) { session.ReplayEnds(result); }
      case ReplayTimeout => if !idle && !Live(session.state.phase) { session.ReplayTimesOut(); }
    }
    PendingGoes(old(session.state), session.state, session.writer.state);
  }

  /** A step towards the end of the session. */
  method StoppingStep(session: ProcessSession, step: SessionStep)
    requires session.Valid() && (step.StopCall? || step.WorkerFails? || step.Return?)
    modifies session
    ensures session.Valid() && session.crowded == old(session.crowded) && session.waited == old(session.waited)
    ensures BringsNothing(old(session.state), session.writer.state, session.state, session.writer.state)
  {
    match step {
      case StopCall => session.Stop();
      case WorkerFails => session.BeginReplayStop();
      case Return => if session.state.replaying.None? { session.End(); }
    }
    PendingGoes(old(session.state), session.state, session.writer.state);
  }

  method ShutdownStep(session: ProcessSession)
    requires session.Valid() && session.state.pending == [] && !session.state.phase.Starting? && !session.state.phase.Replaying?
    modifies session, session.writer`state, session.writer`accepted
    ensures session.Valid() && session.crowded == old(session.crowded) && session.waited == old(session.waited)
    ensures BringsNothing(old(session.state), old(session.writer.state), session.state, session.writer.state)
  {
    var r := session.Shutdown();
    ShutdownArrives(old(session.state), old(session.writer.state), old(session.state).arrived, session.writer.state);
  }

  /**
   One step of a caller or goroutine that brings no new control, if it is possible
   now. Only a step of the writer has an effect on the plugin.
   */
  method TakeStep(session: ProcessSession, step: SessionStep) returns (ghost dealt: Option<Request>)
    requires session.Valid() && !step.Call?
    modifies session, session.writer
    ensures session.Valid() && session.crowded == old(session.crowded) && session.waited == old(session.waited)
    ensures BringsNothing(old(session.state), old(session.writer.state), session.state, session.writer.state)
    ensures dealt.None? ==> session.writer.answers == old(session.writer.answers) && session.writer.wire == old(session.writer.wire)
    ensures dealt.Some? ==> Holds(old(session.writer.state), dealt.value) && old(session.writer.answers) <= session.writer.answers
    ensures dealt.Some? ==> |session.writer.answers| == |old(session.writer.answers)| + 1
    ensures dealt.Some? ==>
      Answers(session.writer.initial, old(session.writer.wire), dealt.value, session.writer.answers[|old(session.writer.answers)|], session.writer.wire)
  {
    dealt := None;
    match step {
      case EnterWriter(w) => if w in session.state.entering { EnterStep(session, w); }
      case AbandonCall(_) | GiveUp(_) => GiveUpStep(session, step);
      case Connected | ReplayTurn | ReplayBack(_) | ReplayTimeout => ReplayStep(session, step);
      case WriterMoves(sendOk) => if !session.writer.Idle() { dealt := session.WriterStep(sendOk); }
      case StopCall | WorkerFails | Return => StoppingStep(session, step);
      case ShutDown =>
        if session.state.pending == [] && !session.state.phase.Starting? && !session.state.phase.Replaying? { ShutdownStep(session); }
    }
  }

  /**
   Every interleaving of callers, the session's goroutine, its replayed calls and the
   writer. What had to wait enters the writer in the order of arrival and before every
   call that saw Ready. All calls enter in the order of arrival exactly if none was
   overtaken between the locks, so in particular if there were never two of them
   there. A control that waited is told of success only by the writer, gets at most
   one reply, and exactly one once the session is ready or has ended. The writer tells
   of success exactly those whose messages, if they have any, are on the wire.
   */
  method RunSession(initial: ControlState, capacity: nat, steps: seq<SessionStep>)
    returns (state: SessionState, waited: set<nat>, replies: seq<Answer>, accepted: seq<nat>, answers: seq<Answer>,
             ghost wire: seq<Message>, ghost done: seq<Request>, ghost overtaken: set<nat>, ghost crowded: bool)
    ensures WaitedFirst(accepted, waited)
    ensures Ascending(accepted) <==> forall id | id in accepted :: id !in overtaken
    ensures !crowded ==> Ascending(accepted)
    ensures Ids(answers) <= accepted && forall a | a in replies && a.content == Success :: a in answers
    ensures CarriedOut(initial, wire, answers, done)
    ensures Distinct(Ids(replies)) && forall id | id in Ids(replies) :: id in waited
    ensures forall id | id in waited :: OnePlace(state, Ids(replies), id)
    ensures state.phase.Ready? || state.phase.Ended? ==> forall id :: id in waited <==> id in Ids(replies)
  {
    var session := new ProcessSession(initial, capacity);
    for i := 0 to |steps|
      invariant fresh(session) && fresh(session.writer) && session.Valid() && session.writer.initial == initial
    {
      if steps[i].Call? {
        var r := session.Control(steps[i].kind);
      } else {
        ghost var dealt := TakeStep(session, steps[i]);
      }
    }
    state, waited, replies := session.state, session.waited, session.replies;
    accepted, answers := session.writer.accepted, session.writer.answers;
    wire, done := session.writer.wire, session.writer.done;
    overtaken, crowded := session.overtaken, session.crowded;
    LedgerPrefix(session.writer.state, accepted, answers);
  }

  /**
   Whenever two calls are between the locks and the writer has room for both, the one
   that arrived later can enter first: then the order of arrival is lost for good.
   */
  method LaterCallFirst(session: ProcessSession, a: Request, b: Request)
    requires session.Valid() && a in session.state.entering && b in session.state.entering && a.id < b.id
    requires session.writer.state.accepting && b.content != ShutdownRequest
    requires |session.writer.state.queue| + 2 <= session.writer.capacity
    modifies session, session.writer
    ensures session.Valid() && session.writer.accepted == old(session.writer.accepted) + [b.id, a.id]
    ensures !Ascending(session.writer.accepted)
  {
    var first := session.Enter(b);
    var second := session.Enter(a);
    SwappedTail(old(session.writer.accepted), a.id, b.id);
  }

  lemma SwappedTail(ids: seq<nat>, a: nat, b: nat)
    requires a < b
    ensures !Ascending(ids + [b, a]) && ids + [b] + [a] == ids + [b, a]
  {
    assert (ids + [b, a])[|ids|] == b && (ids + [b, a])[|ids| + 1] == a;
  }

  /** In any ready session two calls that follow each other at once can reach the writer in reverse. */
  method NextCallsSwap(session: ProcessSession, kind: Kind)
    requires session.Valid() && session.state.phase.Ready? && kind != ShutdownRequest
    requires session.writer.state.accepting && |session.writer.state.queue| + 2 <= session.writer.capacity
    modifies session, session.writer
    ensures session.Valid()
    ensures session.writer.accepted == old(session.writer.accepted) + [old(session.state).arrived + 1, old(session.state).arrived]
  {
    var a, b := Tagged(session.state.arrived, kind), Tagged(session.state.arrived + 1, kind);
    session.StepForward(kind);
    session.StepForward(kind);
    LaterCallFirst(session, a, b);
  }

  /** So a session that connects while nothing waits need not keep the order of arrival. */
  method SwapExample(session: ProcessSession, kind: Kind)
    requires session.Valid() && session.state == SessionState(Starting, 0, [], None, {}) && kind != ShutdownRequest
    requires session.writer.accepted == [] && session.writer.state.accepting
    requires |session.writer.state.queue| + 2 <= session.writer.capacity
    modifies session, session.writer
    ensures session.writer.accepted == [1, 0]
  {
    ReadyAtOnce(session);
    NextCallsSwap(session, kind);
  }

  /** A session that nobody has called is ready as soon as it is connected. */
  method ReadyAtOnce(session: ProcessSession)
    requires session.Valid() && session.state == SessionState(Starting, 0, [], None, {})
    modifies session
    ensures session.Valid() && session.state == SessionState(Ready, 0, [], None, {})
  {
    session.BeginReplay();
    session.ReplayNext();
  }

  // ---- The shutdown acknowledgement ----

  datatype ShutdownState = NotStarted | SendingShutdown | SendComplete

  /** Where the reader is in its handling of the acknowledgement. */
  datatype ReaderStep = Waiting | SawSending | Queued | SawComplete | ReaderDone

  /** Where the shutting-down goroutine is: the send, storing its end, looking for a queued acknowledgement. */
  datatype OwnerStep = Sending | Sent | Stored | SawQueued | OwnerDone | SendRefused

  datatype Handshake = Handshake(shutdown: ShutdownState, ackQueued: bool, signalled: bool, violation: bool, reader: ReaderStep, owner: OwnerStep)

  /** What each side's position says of the shared flags. */
  predicate HandshakeSound(h: Handshake) {
    && (h.shutdown == SendComplete <==> h.owner.Stored? || h.owner.SawQueued? || h.owner.OwnerDone?)
    && (h.owner.Sent? ==> h.shutdown == SendingShutdown)
    && (h.shutdown == NotStarted ==> h.reader.Waiting? || h.violation)
    && (h.ackQueued ==> h.reader.Queued? || h.reader.SawComplete? || h.reader.ReaderDone?)
    && (h.reader.Queued? ==> h.ackQueued)
    && (h.owner.SawQueued? ==> h.ackQueued)
    && (h.reader.SawComplete? ==> h.shutdown == SendComplete)
    && (h.reader.ReaderDone? && !h.violation && !h.signalled ==> h.ackQueued && !h.owner.OwnerDone?)
  }

  /** One atomic load or store of the reader, which has received the acknowledgement. */
  function ReaderMoves(h: Handshake): Handshake
    requires !h.reader.ReaderDone?
  {
    match h.reader
    case Waiting =>
      if h.shutdown == NotStarted then h.(reader := ReaderDone, violation := true)
      else if h.shutdown == SendingShutdown then h.(reader := SawSending)
      else h.(reader := SawComplete)
    case SawSending => h.(ackQueued := true, reader := Queued)
    case Queued => if h.shutdown == SendComplete then h.(reader := SawComplete) else h.(reader := ReaderDone)
    case SawComplete => h.(signalled := true, reader := ReaderDone)
  }

  /** One atomic step of the owner; the send may fail, or not even start. */
  function OwnerMoves(h: Handshake, ok: bool): Handshake
    requires !h.owner.OwnerDone? && !h.owner.SendRefused?
  {
    match h.owner
    case Sending =>
      if h.shutdown == NotStarted then
        if ok then h.(shutdown := SendingShutdown) else h.(owner := SendRefused)
      else h.(owner := if ok then Sent else SendRefused)
    case Sent => h.(shutdown := SendComplete, owner := Stored)
    case Stored => h.(owner := if h.ackQueued then SawQueued else OwnerDone)
    case SawQueued => h.(signalled := true, owner := OwnerDone)
  }

  lemma ReaderKeepsSound(h: Handshake)
    requires HandshakeSound(h) && !h.reader.ReaderDone?
    ensures HandshakeSound(ReaderMoves(h))
  {
  }

  lemma OwnerKeepsSound(h: Handshake, ok: bool)
    requires HandshakeSound(h) && !h.owner.OwnerDone? && !h.owner.SendRefused?
    ensures HandshakeSound(OwnerMoves(h, ok))
  {
  }

  /**
   Every interleaving of the two: when both are through and the send succeeded, an
   acknowledgement that came after the send began has been signalled.
   */
  method RunHandshake(schedule: seq<(bool, bool)>) returns (h: Handshake)
    ensures h.owner.OwnerDone? && h.reader.ReaderDone? && !h.violation ==> h.signalled
    ensures h.signalled ==> h.shutdown == SendComplete
  {
    h := Handshake(NotStarted, false, false, false, Waiting, OwnerStep.Sending);
    for i := 0 to |schedule|
      invariant HandshakeSound(h) && (h.signalled ==> h.shutdown == SendComplete)
    {
      if schedule[i].0 {
        if !h.reader.ReaderDone? {
          ReaderKeepsSound(h);
          h := ReaderMoves(h);
        }
      } else if !h.owner.OwnerDone? && !h.owner.SendRefused? {
        OwnerKeepsSound(h, schedule[i].1);
        h := OwnerMoves(h, schedule[i].1);
      }
    }
  }
}
