/**
 Submitting runs: which requests are accepted, and the rows one submission makes.
 */
module Submissions {
  import opened Wrappers
  import opened Json
  import opened Runs

  const MAX_SEED: int := 0x7FFF_FFFF_FFFF_FFFF
  const MAX_SEEDS: int := 100

  datatype Request = Request(until: Option<int>, chunkSize: Option<int>, seed: Option<int>, seeds: int)

  predicate Accepted(request: Request) {
    && 1 <= request.seeds <= MAX_SEEDS
    && (request.seed.Some? ==> 0 <= request.seed.value <= MAX_SEED)
    && (request.seed.Some? ==> request.seed.value + request.seeds - 1 <= MAX_SEED)
  }

  // The server draws a first seed from 0 up to, but not including, this.
  function DrawBound(seeds: int): int {
    MAX_SEED + 2 - seeds
  }

  function FirstSeed(request: Request, draw: int): int {
    request.seed.GetOr(draw)
  }

  // The rows of one submission, for the spec and version that were read and the target fixed
  // from them. `batch` is a fresh id, used only for more than one run.
  function Orders(project: nat, spec: Spec, version: int, target: int, request: Request, first: int,
                  batch: nat): seq<Order>
    requires 0 <= request.seeds
  {
    seq(request.seeds, (i: nat) =>
      Order(project, request.until, Some(target), request.chunkSize, Some(first + i),
            if request.seeds > 1 then Some(batch) else None, Some(spec), Some(version)))
  }

  /** A request for one to a hundred runs is accepted if it leaves the seed to the server, or names one
      from which as many seeds as runs fit a signed 64-bit column; and from exactly those first seeds the
      server draws. */
  lemma DrawsAreTheAcceptedStarts(request: Request, n: int)
    ensures Accepted(request.(seed := None)) <==> 1 <= request.seeds <= 100
    ensures Accepted(request.(seed := Some(n)))
            <==> 1 <= request.seeds <= 100 && 0 <= n && n + request.seeds <= 9_223_372_036_854_775_808
    ensures Accepted(request.(seed := None)) ==>
              (0 <= n < DrawBound(request.seeds) <==> Accepted(request.(seed := Some(n))))
  {
  }

  /** An accepted submission makes the number of runs asked for, each with the target and sizes it was
      submitted with: with consecutive seeds from the one asked for, or from the one drawn if none was,
      all of which fit the column, and with a batch id exactly when there are several. */
  lemma BatchesAreExact(project: nat, spec: Spec, version: int, target: int, request: Request, draw: int, batch: nat)
    requires Accepted(request) && 0 <= draw < DrawBound(request.seeds)
    ensures var orders := Orders(project, spec, version, target, request, FirstSeed(request, draw), batch);
            && |orders| == request.seeds
            && (forall i | 0 <= i < |orders| ::
                  var seed := (match request.seed case Some(asked) => asked case None => draw) + i;
                  && orders[i] == Order(project, request.until, Some(target), request.chunkSize, Some(seed),
                                        if request.seeds == 1 then None else Some(batch), Some(spec), Some(version))
                  && 0 <= seed < 9_223_372_036_854_775_808)
  {
    DrawsAreTheAcceptedStarts(request, draw);
  }

  /** Asking again with the seed of the first run of a submission is accepted, and makes rows with the
      same seeds, whatever the server would have drawn this time. */
  lemma ReplaysAreAccepted(project: nat, spec: Spec, version: int, target: int, request: Request, draw: int, batch: nat,
                           draw': int, batch': nat)
    requires Accepted(request) && 0 <= draw < DrawBound(request.seeds) && 0 <= draw' < DrawBound(request.seeds)
    ensures var orders := Orders(project, spec, version, target, request, FirstSeed(request, draw), batch);
            && orders != []
            && var again := request.(seed := orders[0].seed);
            && Accepted(again)
            && var replay := Orders(project, spec, version, target, again, FirstSeed(again, draw'), batch');
               |replay| == |orders| && forall i | 0 <= i < |orders| :: replay[i].seed == orders[i].seed
  {
    BatchesAreExact(project, spec, version, target, request, draw, batch);
  }

  // The runs of a submission, inserted in one commit.
  function AddRuns(cells: map<nat, Cell>, ids: seq<nat>, orders: seq<Order>): map<nat, Cell>
    requires |ids| == |orders|
  {
    if ids == [] then cells
    else AddRuns(cells, ids[..|ids| - 1], orders[..|ids| - 1])[ids[|ids| - 1] := NewCell(orders[|ids| - 1])]
  }

  // `added` is `cells` and the new runs of these orders.
  ghost predicate HasAdded(cells: map<nat, Cell>, ids: seq<nat>, orders: seq<Order>, added: map<nat, Cell>)
    requires |ids| == |orders|
  {
    && (forall r :: r in added <==> r in cells || r in ids)
    && (forall i :: 0 <= i < |ids| ==> added[ids[i]] == NewCell(orders[i]))
    && (forall r :: r in cells && r !in ids ==> added[r] == cells[r])
  }

  lemma OneMoreRun(cells: map<nat, Cell>, ids: seq<nat>, orders: seq<Order>, added: map<nat, Cell>,
                   id: nat, order: Order)
    requires |ids| == |orders| && HasAdded(cells, ids, orders, added) && id !in ids
    ensures HasAdded(cells, ids + [id], orders + [order], added[id := NewCell(order)])
  {
    forall i | 0 <= i < |ids| ensures (ids + [id])[i] != id {
      assert ids[i] in ids;
    }
  }

  lemma {:induction false} AddRunsAdds(cells: map<nat, Cell>, ids: seq<nat>, orders: seq<Order>)
    requires |ids| == |orders|
    requires forall i, j :: 0 <= i < j < |ids| ==> ids[i] != ids[j]
    ensures HasAdded(cells, ids, orders, AddRuns(cells, ids, orders))
    decreases |ids|
  {
    if ids == [] {
    } else {
      var n := |ids| - 1;
      AddRunsAdds(cells, ids[..n], orders[..n]);
      OneMoreRun(cells, ids[..n], orders[..n], AddRuns(cells, ids[..n], orders[..n]), ids[n], orders[n]);
      assert ids == ids[..n] + [ids[n]] && orders == orders[..n] + [orders[n]];
    }
  }
}
