/**
 The xApp's control loop: per UE it adds up the reported downlink volume, and
 whenever more than 20 MB have come together it resets the volume and switches
 the UE's PRB limit between 10 and 100. Volumes are in kbit, as reported.

 Dictionaries are walked in an arbitrary order.
 */
module PrbController {
  import opened Common
  import opened Kpm

  const DL_VOLUME := "DRB.RlcSduTransmittedVolumeDL"
  const MIN_PRB := 1
  const MAX_PRB_1 := 10
  const MAX_PRB_2 := 100

  /** 20 MB in kbit. */
  const THRESHOLD: nat := 160000

  /** A control request, with the volume that caused it. */
  datatype Request = Request(ue: Ue, minPrb: nat, maxPrb: nat, volume: nat)

  type Indication = map<Ue, Metrics>

  // ---------------------------------------------------------- specification

  function Get(m: map<Ue, nat>, ue: Ue, default: nat): nat {
    if ue in m then m[ue] else default
  }

  /** The volume that a message reports for a UE. */
  function Volume(msg: Indication, ue: Ue): nat {
    if ue in msg && DL_VOLUME in msg[ue] then Sum(msg[ue][DL_VOLUME]) else 0
  }

  /** The volume that all messages so far have reported for a UE. */
  function Reported(history: seq<Indication>, ue: Ue): nat {
    if history == [] then 0 else Reported(history[..|history|-1], ue) + Volume(history[|history|-1], ue)
  }

  /** The requests for one UE, in order. */
  function For(sent: seq<Request>, ue: Ue): seq<Request> {
    if sent == [] then []
    else For(sent[..|sent|-1], ue) + if sent[|sent|-1].ue == ue then [sent[|sent|-1]] else []
  }

  function Volumes(requests: seq<Request>): nat {
    if requests == [] then 0 else Volumes(requests[..|requests|-1]) + requests[|requests|-1].volume
  }

  function Switched(limit: nat): nat {
    if limit == MAX_PRB_1 then MAX_PRB_2 else MAX_PRB_1
  }

  /** The limits alternate 10, 100, 10, ... and each request was caused by more than the threshold. */
  ghost predicate RequestOk(requests: seq<Request>, i: nat)
    requires i < |requests|
  {
    && requests[i].minPrb == MIN_PRB && requests[i].volume > THRESHOLD
    && requests[i].maxPrb == if i % 2 == 0 then MAX_PRB_1 else MAX_PRB_2
  }

  ghost predicate Alternating(requests: seq<Request>) {
    forall i :: 0 <= i < |requests| ==> RequestOk(requests, i)
  }

  /** The stored limit is the one sent last. */
  ghost predicate LimitOk(limits: map<Ue, nat>, ue: Ue, requests: seq<Request>) {
    if requests == [] then ue !in limits else ue in limits && limits[ue] == requests[|requests|-1].maxPrb
  }

  /** What is known about one UE when `total` has been reported for it. */
  ghost predicate UeOk(volumes: map<Ue, nat>, limits: map<Ue, nat>, sent: seq<Request>, total: nat, ue: Ue) {
    && total == Get(volumes, ue, 0) + Volumes(For(sent, ue))
    && Alternating(For(sent, ue)) && LimitOk(limits, ue, For(sent, ue))
  }

  // ------------------------------------------------------------------ lemmas

  lemma ForAppend(sent: seq<Request>, r: Request, ue: Ue)
    ensures For(sent + [r], ue) == For(sent, ue) + if r.ue == ue then [r] else []
  {
    assert (sent + [r])[..|sent|] == sent;
  }

  lemma ReportedAppend(history: seq<Indication>, msg: Indication, ue: Ue)
    ensures Reported(history + [msg], ue) == Reported(history, ue) + Volume(msg, ue)
  {
    assert (history + [msg])[..|history|] == history;
  }

  /** Sending a request for a UE moves its volume from the counter to the requests and switches its limit. */
  lemma SwitchKeeps(volumes: map<Ue, nat>, limits: map<Ue, nat>, sent: seq<Request>, total: nat, ue: Ue, r: Request)
    requires UeOk(volumes, limits, sent, total, ue) && ue in volumes && volumes[ue] > THRESHOLD
    requires r == Request(ue, MIN_PRB, Switched(Get(limits, ue, MAX_PRB_2)), volumes[ue])
    ensures UeOk(volumes[ue := 0], limits[ue := r.maxPrb], sent + [r], total, ue)
  {
    var requests := For(sent, ue);
    var requests' := requests + [r];
    ForAppend(sent, r, ue);
    assert requests'[..|requests|] == requests;
    if requests != [] { assert RequestOk(requests, |requests| - 1); }
    forall i | 0 <= i < |requests'| ensures RequestOk(requests', i) {
      if i < |requests| { assert RequestOk(requests, i); }
    }
  }

  /** Other UEs do not notice. */
  lemma OtherKeeps(volumes: map<Ue, nat>, limits: map<Ue, nat>, sent: seq<Request>, total: nat, ue: Ue, v: nat, l: nat, r: Request)
    requires UeOk(volumes, limits, sent, total, ue) && r.ue != ue
    ensures UeOk(volumes[r.ue := v], limits[r.ue := l], sent + [r], total, ue)
  {
    ForAppend(sent, r, ue);
    assert For(sent, ue) + [] == For(sent, ue);
  }

  lemma {:induction false} VolumesBound(requests: seq<Request>)
    requires Alternating(requests)
    ensures (THRESHOLD + 1) * |requests| <= Volumes(requests)
  {
    if requests != [] {
      var rest := requests[..|requests|-1];
      assert RequestOk(requests, |requests| - 1);
      forall i | 0 <= i < |rest| ensures RequestOk(rest, i) { assert RequestOk(requests, i); }
      VolumesBound(rest);
    }
  }

  // -------------------------------------------------------------- the callback

  class Controller {
    var volumes: map<Ue, nat>
    var limits: map<Ue, nat>
    var sent: seq<Request>
    ghost var history: seq<Indication>

    ghost predicate Valid()
      reads this
    {
      forall ue: Ue :: UeOk(volumes, limits, sent, Reported(history, ue), ue)
    }

    constructor ()
      ensures Valid() && history == [] && sent == [] && volumes == map[] && limits == map[]
    {
      volumes, limits, sent, history := map[], map[], [], [];
    }

    /** The loop over the metrics of one UE. */
    method Account(ue: Ue, data: Metrics)
      modifies this`volumes
      ensures volumes == if DL_VOLUME in data
        then old(volumes)[ue := Get(old(volumes), ue, 0) + Sum(data[DL_VOLUME])] else old(volumes)
    {
      var todo := data.Keys;
      while todo != {}
        invariant todo <= data.Keys
        invariant volumes == if DL_VOLUME in data && DL_VOLUME !in todo
          then old(volumes)[ue := Get(old(volumes), ue, 0) + Sum(data[DL_VOLUME])] else old(volumes)
        decreases todo
      {
        var name :| name in todo;
        if name == DL_VOLUME {
          if ue in volumes {
            volumes := volumes[ue := volumes[ue] + Sum(data[name])];
          } else {
            volumes := volumes[ue := Sum(data[name])];
          }
        }
        todo := todo - {name};
      }
    }

    /** The first loop: every reported volume is added. */
    method Collect(msg: Indication)
      modifies this`volumes
      ensures forall ue: Ue :: Get(volumes, ue, 0) == Get(old(volumes), ue, 0) + Volume(msg, ue)
      ensures forall ue :: ue in volumes <==> ue in old(volumes) || (ue in msg && DL_VOLUME in msg[ue])
    {
      var todo := msg.Keys;
      while todo != {}
        invariant todo <= msg.Keys
        invariant forall ue: Ue ::
          Get(volumes, ue, 0) == Get(old(volumes), ue, 0) + if ue in todo then 0 else Volume(msg, ue)
        invariant forall ue :: ue in volumes <==> ue in old(volumes) || (ue in msg && ue !in todo && DL_VOLUME in msg[ue])
        decreases todo
      {
        var ue :| ue in todo;
        Account(ue, msg[ue]);
        todo := todo - {ue};
      }
    }

    /** What one pass of the second loop does for one UE. */
    method Decide(ue: Ue)
      requires ue in volumes
      modifies this`volumes, this`limits, this`sent
      ensures if old(volumes[ue]) > THRESHOLD then
          var r := Request(ue, MIN_PRB, Switched(Get(old(limits), ue, MAX_PRB_2)), old(volumes[ue]));
          volumes == old(volumes)[ue := 0] && limits == old(limits)[ue := r.maxPrb] && sent == old(sent) + [r]
        else volumes == old(volumes) && limits == old(limits) && sent == old(sent)
    {
      var value := volumes[ue];
      if value > THRESHOLD {
        var current := Get(limits, ue, MAX_PRB_2);
        var new_ := if current == MAX_PRB_1 then MAX_PRB_2 else MAX_PRB_1;
        volumes := volumes[ue := 0];
        limits := limits[ue := new_];
        sent := sent + [Request(ue, MIN_PRB, new_, value)];
      }
    }

    /** The second loop: every UE over the threshold gets a request, in whatever order. */
    method Control()
      requires Valid()
      modifies this`volumes, this`limits, this`sent
      ensures Valid()
      ensures forall ue: Ue :: UeStep(Get(old(volumes), ue, 0), Get(old(limits), ue, MAX_PRB_2), For(old(sent), ue),
                                      Get(volumes, ue, 0), For(sent, ue), ue)
    {
      var todo := volumes.Keys;
      while todo != {}
        invariant Valid() && todo <= volumes.Keys
        invariant forall ue: Ue ::
          Handled(old(volumes), old(limits), old(sent), volumes, limits, sent, todo, ue)
        decreases todo
      {
        var ue :| ue in todo;
        ghost var volumes0, limits0, sent0 := volumes, limits, sent;
        Decide(ue);
        if volumes0[ue] > THRESHOLD {
          DecisionKeeps(volumes0, limits0, sent0, sent[|sent|-1], history);
          forall u: Ue ensures For(sent, u) == For(sent0, u) + if u == ue then [sent[|sent|-1]] else [] {
            ForAppend(sent0, sent[|sent|-1], u);
          }
        }
        forall u: Ue ensures Handled(old(volumes), old(limits), old(sent), volumes, limits, sent, todo - {ue}, u) {
          assert Handled(old(volumes), old(limits), old(sent), volumes0, limits0, sent0, todo, u);
        }
        todo := todo - {ue};
      }
      forall ue: Ue ensures UeStep(Get(old(volumes), ue, 0), Get(old(limits), ue, MAX_PRB_2), For(old(sent), ue),
                                   Get(volumes, ue, 0), For(sent, ue), ue) {
        assert Handled(old(volumes), old(limits), old(sent), volumes, limits, sent, todo, ue);
      }
    }

    /**
     The subscription callback, after extraction. For every UE, exactly when its
     volume now exceeds the threshold, one request is sent and the volume restarts.
     */
    method OnMeasurements(msg: Indication)
      requires Valid()
      modifies this
      ensures Valid() && history == old(history) + [msg]
      ensures forall ue: Ue :: UeStep(Get(old(volumes), ue, 0) + Volume(msg, ue), Get(old(limits), ue, MAX_PRB_2),
                                      For(old(sent), ue), Get(volumes, ue, 0), For(sent, ue), ue)
    {
      Collect(msg);
      history := history + [msg];
      forall ue: Ue ensures UeOk(volumes, limits, sent, Reported(history, ue), ue) {
        ReportedAppend(old(history), msg, ue);
        assert UeOk(old(volumes), limits, sent, Reported(old(history), ue), ue);
      }
      Control();
    }

    /** The whole callback on a format 3 message; a malformed one raises and changes nothing. */
    method OnIndication(reports: seq<(Ue, Report)>) returns (raised: bool)
      requires Valid()
      modifies this
      ensures Valid()
      ensures raised <==> exists i :: 0 <= i < |reports| && !Fits(reports[i].1)
      ensures raised ==> unchanged(this)
      ensures !raised ==> |history| == |old(history)| + 1 && history[..|old(history)|] == old(history)
      ensures !raised ==> forall i :: 0 <= i < |reports| && Last(reports, i) ==>
        reports[i].0 in history[|history|-1] && IsExtract(reports[i].1, history[|history|-1][reports[i].0])
      ensures !raised ==> forall u :: u in history[|history|-1] ==> Reports(reports, |reports|, u)
      ensures !raised ==> forall ue: Ue ::
        UeStep(Get(old(volumes), ue, 0) + Volume(history[|history|-1], ue), Get(old(limits), ue, MAX_PRB_2),
               For(old(sent), ue), Get(volumes, ue, 0), For(sent, ue), ue)
    {
      var msg := ExtractFormat3(reports);
      if msg.None? {
        return true;
      }
      OnMeasurements(msg.value);
      return false;
    }

    /** Over every run: the limits sent alternate, and the volume reported pays for every request. */
    lemma Amortised(ue: Ue)
      requires Valid()
      ensures forall i :: 0 <= i < |For(sent, ue)| ==>
        For(sent, ue)[i].maxPrb == if i % 2 == 0 then MAX_PRB_1 else MAX_PRB_2
      ensures Reported(history, ue) == Get(volumes, ue, 0) + Volumes(For(sent, ue))
      ensures THRESHOLD * |For(sent, ue)| <= Reported(history, ue)
      ensures For(sent, ue) != [] ==> THRESHOLD * |For(sent, ue)| < Reported(history, ue)
    {
      assert UeOk(volumes, limits, sent, Reported(history, ue), ue);
      VolumesBound(For(sent, ue));
      forall i | 0 <= i < |For(sent, ue)|
        ensures For(sent, ue)[i].maxPrb == if i % 2 == 0 then MAX_PRB_1 else MAX_PRB_2
      {
        assert RequestOk(For(sent, ue), i);
      }
    }
  }

  /** From volume `value` and limit `limit` to a new counter and new requests. */
  ghost predicate UeStep(value: nat, limit: nat, requests: seq<Request>, value': nat, requests': seq<Request>, ue: Ue) {
    if value > THRESHOLD then
      value' == 0 && requests' == requests + [Request(ue, MIN_PRB, Switched(limit), value)]
    else
      value' == value && requests' == requests
  }

  /** How far the second loop is with one UE. */
  ghost predicate Handled(volumes: map<Ue, nat>, limits: map<Ue, nat>, sent: seq<Request>,
                          volumes': map<Ue, nat>, limits': map<Ue, nat>, sent': seq<Request>, todo: set<Ue>, ue: Ue) {
    && (ue in volumes <==> ue in volumes')
    && if ue in volumes && ue !in todo then
         UeStep(Get(volumes, ue, 0), Get(limits, ue, MAX_PRB_2), For(sent, ue), Get(volumes', ue, 0), For(sent', ue), ue)
       else
         && Get(volumes', ue, 0) == Get(volumes, ue, 0) && Get(limits', ue, MAX_PRB_2) == Get(limits, ue, MAX_PRB_2)
         && For(sent', ue) == For(sent, ue)
  }

  lemma DecisionKeeps(volumes: map<Ue, nat>, limits: map<Ue, nat>, sent: seq<Request>, r: Request, history: seq<Indication>)
    requires forall ue: Ue :: UeOk(volumes, limits, sent, Reported(history, ue), ue)
    requires r.ue in volumes && volumes[r.ue] > THRESHOLD
    requires r == Request(r.ue, MIN_PRB, Switched(Get(limits, r.ue, MAX_PRB_2)), volumes[r.ue])
    ensures forall ue: Ue :: UeOk(volumes[r.ue := 0], limits[r.ue := r.maxPrb], sent + [r], Reported(history, ue), ue)
  {
    forall ue: Ue ensures UeOk(volumes[r.ue := 0], limits[r.ue := r.maxPrb], sent + [r], Reported(history, ue), ue) {
      assert UeOk(volumes, limits, sent, Reported(history, ue), ue);
      if ue == r.ue {
        SwitchKeeps(volumes, limits, sent, Reported(history, ue), ue, r);
      } else {
        OtherKeeps(volumes, limits, sent, Reported(history, ue), ue, 0, r.maxPrb, r);
      }
    }
  }
}
