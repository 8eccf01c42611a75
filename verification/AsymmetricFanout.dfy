/** The smallest topology that the lockstep validator rejects, put together with the fan-out it is about. */
module AsymmetricFanout {
  import D = DagModel
  import L = LockstepValidation
  import F = Fanout
  import R = FanoutReaders

  /** A lazy fan-out, a step that makes a collection of one branch, and a step that joins both. */
  function Diamond(): D.Graph {
    D.Graph(["f", "m", "j"],
            map["f" := D.Node([], false, true), "m" := D.Node(["f"], true, true), "j" := D.Node(["f", "m"], false, false)])
  }

  lemma DiamondIsRejected()
    ensures Diamond().Valid() && L.LazyFanout(Diamond(), "f") && L.Asymmetric(Diamond(), "f", "j")
  {
    var g := Diamond();
    assert g.names[0] == "f" && g.names[1] == "m" && g.names[2] == "j";
    assert g.nodes["m"].deps[0] == "f" && g.nodes["j"].deps[0] == "f" && g.nodes["j"].deps[1] == "m";
    assert g.Edge("f", "m") && g.Edge("f", "j") && g.Edge("m", "j");
    var short, long := ["f", "j"], ["f", "m", "j"];
    assert L.IsWalk(g, "f", short) && !L.Barred(g, "f", short);
    assert L.IsWalk(g, "f", long) && long[1] == "m" && g.Barrier("m") && L.Barred(g, "f", long);
    assert L.Leads(g, "f", "j", false, short) && L.Leads(g, "f", "j", true, long);
  }

  lemma TwoInOrder(c: F.Config)
    requires c.width == 2
    ensures R.IsOrder(c, [0, 1]) && (R.RoomForAll(c, [0, 1]) <==> c.items <= c.cap)
  {
    var order: seq<nat> := [0, 1];
    assert order[0] == 0 && order[1] == 1;
    forall b | 0 <= b < c.width ensures b in order {
      assert b == order[b];
    }
  }

  /** At run time the collecting step drains its branch before the join reads the other one.  So the
      rejection is needed exactly for sources with more than `max_in_flight` items: in every reachable
      state the run can still end if there are no more, and can never end if there are. */
  lemma RejectionIsNeededExactly(c: F.Config, s: F.State)
    requires c.width == 2 && R.ReaderReachable(R.Sequential, c, [0, 1], s)
    ensures Diamond().Valid() && L.LazyFanout(Diamond(), "f") && L.Asymmetric(Diamond(), "f", "j")
    ensures R.CanFinish(R.Sequential, c, [0, 1], s) <==> c.items <= c.cap
  {
    DiamondIsRejected();
    TwoInOrder(c);
    R.SequentialFinishesExactly(c, [0, 1], s);
  }
}
