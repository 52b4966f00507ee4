/** Ownership of the neural nets of an automatic match: nets are loaded when games are scheduled, shared by
    all games that use the same file, and deleted when the last scheduled game has finished. */
module NetOwnership {
  import opened Grid

  /** A loaded net: which instance it is, and how many uses of it were scheduled, finished and are going on. */
  datatype Net = Net(id: nat, total: int, completed: int, active: int)

  type Nets = map<string, Net>

  function Preregistered(nets: Nets, file: string, n: int, freshId: nat): Nets
  {
    if file in nets then nets[file := nets[file].(total := nets[file].total + n)]
    else nets[file := Net(freshId, n, 0, 0)]
  }

  function Started(nets: Nets, file: string): Nets
    requires file in nets
  {
    nets[file := nets[file].(active := nets[file].active + 1)]
  }

  function Finished(nets: Nets, file: string): Nets
    requires file in nets
  {
    var net := nets[file].(active := nets[file].active - 1, completed := nets[file].completed + 1);
    if net.completed == net.total then nets - {file} else nets[file := net]
  }

  // ----- the net manager; each method runs under the manager's lock

  class NetAndStuff {
    const nnEval: nat
    var gamesTotal: int
    var gamesCompleted: int
    var gamesActive: int

    constructor (nnEval: nat)
      ensures this.nnEval == nnEval && gamesTotal == gamesCompleted == gamesActive == 0
    {
      this.nnEval := nnEval;
      gamesTotal, gamesCompleted, gamesActive := 0, 0, 0;
    }

    ghost function Counters(): Net
      reads this
    {
      Net(nnEval, gamesTotal, gamesCompleted, gamesActive)
    }
  }

  class NetManager {
    var loadedNets: map<string, NetAndStuff>
    var nextEval: nat

    constructor ()
      ensures Valid() && Contents() == map[] && nextEval == 0
    {
      loadedNets, nextEval := map[], 0;
    }

    /** Different files have different nets. */
    ghost predicate Valid()
      reads this
    {
      forall f, g :: f in loadedNets && g in loadedNets && f != g ==> loadedNets[f] != loadedNets[g]
    }

    ghost function Contents(): Nets
      reads this, loadedNets.Values
    {
      map f | f in loadedNets :: loadedNets[f].Counters()
    }

    /** Schedule n uses of a file's net, loading it if needed. */
    method PreregisterGames(nnModelFile: string, n: int)
      requires Valid() && n > 0
      modifies this, loadedNets.Values
      ensures Valid() && Contents() == Preregistered(old(Contents()), nnModelFile, n, old(nextEval))
      ensures nextEval == if nnModelFile in old(loadedNets) then old(nextEval) else old(nextEval) + 1
      ensures forall f :: f in loadedNets ==> fresh(loadedNets[f]) || (f in old(loadedNets) && loadedNets[f] == old(loadedNets)[f])
    {
      if nnModelFile !in loadedNets {
        LoadNet(nnModelFile);
      }
      AddGamesTotal(nnModelFile, n);
    }

    method AddGamesTotal(nnModelFile: string, n: int)
      requires Valid() && nnModelFile in loadedNets
      modifies loadedNets[nnModelFile]
      ensures Contents() == old(Contents())[nnModelFile := old(Contents())[nnModelFile].(total := old(Contents())[nnModelFile].total + n)]
    {
      var netAndStuff := loadedNets[nnModelFile];
      netAndStuff.gamesTotal := netAndStuff.gamesTotal + n;
    }

    method LoadNet(nnModelFile: string)
      requires Valid() && nnModelFile !in loadedNets
      modifies this
      ensures Valid() && nnModelFile in loadedNets && fresh(loadedNets[nnModelFile]) && nextEval == old(nextEval) + 1
      ensures loadedNets == old(loadedNets)[nnModelFile := loadedNets[nnModelFile]]
      ensures Contents() == old(Contents())[nnModelFile := Net(old(nextEval), 0, 0, 0)]
    {
      var netAndStuff := new NetAndStuff(nextEval);
      nextEval := nextEval + 1;
      loadedNets := loadedNets[nnModelFile := netAndStuff];
    }

    /** Begin a scheduled use. */
    method RegisterStarting(nnModelFile: string) returns (nnEval: nat)
      requires Valid() && nnModelFile in loadedNets
      modifies loadedNets.Values
      ensures Valid() && loadedNets == old(loadedNets) && Contents() == Started(old(Contents()), nnModelFile)
      ensures nnEval == old(Contents())[nnModelFile].id
    {
      var netAndStuff := loadedNets[nnModelFile];
      netAndStuff.gamesActive := netAndStuff.gamesActive + 1;
      nnEval := netAndStuff.nnEval;
    }

    /** End a use; the net goes when all its scheduled uses have ended. */
    method RegisterFinishing(nnModelFile: string)
      requires Valid() && nnModelFile in loadedNets
      requires loadedNets[nnModelFile].gamesCompleted + loadedNets[nnModelFile].gamesActive <= loadedNets[nnModelFile].gamesTotal
      requires loadedNets[nnModelFile].gamesActive > 0
      modifies this, loadedNets.Values
      ensures Valid() && Contents() == Finished(old(Contents()), nnModelFile) && nextEval == old(nextEval)
      ensures forall f :: f in loadedNets ==> f in old(loadedNets) && loadedNets[f] == old(loadedNets)[f]
    {
      var netAndStuff := loadedNets[nnModelFile];
      netAndStuff.gamesActive := netAndStuff.gamesActive - 1;
      netAndStuff.gamesCompleted := netAndStuff.gamesCompleted + 1;
      if netAndStuff.gamesCompleted == netAndStuff.gamesTotal {
        assert netAndStuff.gamesActive == 0;
        loadedNets := loadedNets - {nnModelFile};
      }
    }
  }
}
