/** The scenario graph: named nodes and parallel adjacency lists of numbered edges. */
module Graph {

  /** What the searches read of a graph and never change: for every node its
      outgoing slots, each with a target node, an edge number and a step number. */
  datatype Net = Net(to: seq<seq<nat>>, num: seq<seq<nat>>, step: seq<seq<int>>) {

    predicate HasSlot(u: int, i: int) {
      0 <= u < |to| && 0 <= i < |to[u]|
    }

    ghost predicate Shaped() {
      && |num| == |to| == |step|
      && (forall u :: 0 <= u < |to| ==> |num[u]| == |to[u]| == |step[u]|)
      && (forall u, i :: HasSlot(u, i) ==> to[u][i] < |to|)
    }

    /** No two slots carry the same edge number. */
    ghost predicate NumbersUnique()
      requires Shaped()
    {
      forall u, i, v, j :: HasSlot(u, i) && HasSlot(v, j) && num[u][i] == num[v][j] ==> u == v && i == j
    }

    ghost predicate Valid() {
      Shaped() && NumbersUnique()
    }
  }

  /** The remaining uses of every slot. */
  type Budgets = seq<seq<nat>>

  ghost predicate Fits(net: Net, b: Budgets) {
    |b| == |net.to| && forall u :: 0 <= u < |b| ==> |b[u]| == |net.to[u]|
  }

  function SetBudget(b: Budgets, u: nat, i: nat, left: nat): Budgets
    requires u < |b| && i < |b[u]|
  {
    var row: seq<nat> := b[u][i := left];
    b[u := row]
  }

  /** The adjacency lists are parallel, targets are nodes, every budget is at least
      one, and the numbers of the edges are unique and below the edge counter. */
  ghost predicate EdgesOk(net: Net, b: Budgets, names: seq<seq<string>>, edgeCount: nat) {
    && net.Valid()
    && Fits(net, b)
    && |names| == |net.to|
    && (forall u :: 0 <= u < |names| ==> |names[u]| == |net.to[u]|)
    && edgeCount >= 1
    && (forall u, i :: net.HasSlot(u, i) ==> b[u][i] >= 1 && 1 <= net.num[u][i] < edgeCount)
  }

  /** Appending one slot with the number `edgeCount` keeps the lists well formed. */
  lemma SlotAppended(net: Net, b: Budgets, names: seq<seq<string>>, edgeCount: nat,
                     u: nat, target: nat, step: int, name: string, budget: nat)
    requires EdgesOk(net, b, names, edgeCount) && u < |net.to| && target < |net.to| && budget >= 1
    ensures EdgesOk(Net(net.to[u := net.to[u] + [target]], net.num[u := net.num[u] + [edgeCount]],
                        net.step[u := net.step[u] + [step]]),
                    b[u := b[u] + [budget]], names[u := names[u] + [name]], edgeCount + 1)
  {
    var net' := Net(net.to[u := net.to[u] + [target]], net.num[u := net.num[u] + [edgeCount]],
                    net.step[u := net.step[u] + [step]]);
    assert forall v, i :: net'.HasSlot(v, i) ==>
             if net.HasSlot(v, i) then net'.to[v][i] == net.to[v][i] && net'.num[v][i] == net.num[v][i]
             else v == u && i == |net.to[u]| && net'.to[v][i] == target && net'.num[v][i] == edgeCount;
  }

  /** Appending an empty adjacency list keeps the lists well formed. */
  lemma NodeAppended(net: Net, b: Budgets, names: seq<seq<string>>, edgeCount: nat)
    requires EdgesOk(net, b, names, edgeCount)
    ensures EdgesOk(Net(net.to + [[]], net.num + [[]], net.step + [[]]), b + [[]], names + [[]], edgeCount)
  {
    var net' := Net(net.to + [[]], net.num + [[]], net.step + [[]]);
    assert forall v, i :: net'.HasSlot(v, i) ==>
             net.HasSlot(v, i) && net'.to[v][i] == net.to[v][i] && net'.num[v][i] == net.num[v][i];
  }

  /** Empty rows. */
  function Blank<T>(n: nat): seq<seq<T>> {
    seq(n, i => [])
  }

  lemma NoneOrOne<T>(rows: seq<seq<T>>)
    ensures rows + Blank(0) == rows && rows + Blank(1) == rows + [[]]
  {
  }

  lemma BlankTwice<T>(rows: seq<seq<T>>, m: nat, n: nat)
    ensures (rows + Blank(m)) + Blank(n) == rows + Blank(m + n)
  {
  }

  function TrimLeft(s: string): string {
    if s != "" && s[0] <= ' ' then TrimLeft(s[1..]) else s
  }

  function TrimRight(s: string): string {
    if s != "" && s[|s| - 1] <= ' ' then TrimRight(s[..|s| - 1]) else s
  }

  /** Java's `String.trim`: drops characters up to the space at both ends. */
  function Trim(s: string): string {
    TrimRight(TrimLeft(s))
  }

  /** Trimming leaves the longest part of the text with no blank at either end. */
  lemma TrimIs(s: string) returns (i: nat, j: nat)
    ensures i <= j <= |s| && Trim(s) == s[i..j]
    ensures forall k :: 0 <= k < i || j <= k < |s| ==> s[k] <= ' '
    ensures i < j ==> s[i] > ' ' && s[j - 1] > ' '
  {
    i := LeftIs(s);
    j := RightIs(s[i..]);
    assert forall k :: i + j <= k < |s| ==> s[k] == s[i..][k - i];
    assert Trim(s) == s[i..][..j] == s[i..i + j];
    j := i + j;
  }

  lemma {:induction false} LeftIs(s: string) returns (i: nat)
    ensures i <= |s| && TrimLeft(s) == s[i..] && (forall k :: 0 <= k < i ==> s[k] <= ' ') && (i < |s| ==> s[i] > ' ')
  {
    i := 0;
    if s != "" && s[0] <= ' ' {
      i := LeftIs(s[1..]);
      assert forall k :: 1 <= k < |s| ==> s[k] == s[1..][k - 1];
      i := i + 1;
    }
  }

  lemma {:induction false} RightIs(s: string) returns (j: nat)
    ensures j <= |s| && TrimRight(s) == s[..j] && (forall k :: j <= k < |s| ==> s[k] <= ' ') && (j > 0 ==> s[j - 1] > ' ')
  {
    j := |s|;
    if s != "" && s[|s| - 1] <= ' ' {
      j := RightIs(s[..|s| - 1]);
    }
  }

  lemma Sizes(net: Net, b: Budgets, names: seq<seq<string>>, edgeCount: nat)
    requires EdgesOk(net, b, names, edgeCount)
    ensures |net.num| == |net.step| == |b| == |names| == |net.to| && net.Valid() && Fits(net, b) && Parallel(net, b, names)
  {
  }

  /** Names and numbers below `count` are in one-to-one correspondence. */
  ghost predicate NamesOk(nums: map<string, nat>, names: map<nat, string>, count: nat) {
    && (forall n: nat :: n in names <==> n < count)
    && (forall n :: n in names ==> names[n] in nums && nums[names[n]] == n)
    && (forall s :: s in nums ==> nums[s] in names && names[nums[s]] == s)
  }

  lemma NameAdded(nums: map<string, nat>, names: map<nat, string>, count: nat, name: string)
    requires NamesOk(nums, names, count)
    ensures name in nums ==> nums[name] < count
    ensures name !in nums ==> NamesOk(nums[name := count], names[count := name], count + 1)
  {
  }

  // ---------- a graph built by calls ----------

  /** The arguments of one call of `AddEdge`. */
  datatype EdgeCall = EdgeCall(beg: string, end: string, stepName: string, stepNumber: int, repeatTime: int)

  /** The lists are parallel. */
  ghost predicate Parallel(net: Net, b: Budgets, names: seq<seq<string>>) {
    net.Shaped() && Fits(net, b) && |names| == |net.to| && forall u :: 0 <= u < |names| ==> |names[u]| == |net.to[u]|
  }

  /** The i-th slot of node `u` carries what a call gave. */
  ghost predicate SlotOf(nums: map<string, nat>, net: Net, b: Budgets, names: seq<seq<string>>, u: nat, i: nat, c: EdgeCall)
    requires Parallel(net, b, names) && net.HasSlot(u, i)
  {
    && Trim(c.beg) in nums && nums[Trim(c.beg)] == u
    && Trim(c.end) in nums && nums[Trim(c.end)] == net.to[u][i]
    && net.step[u][i] == c.stepNumber && names[u][i] == c.stepName
    && b[u][i] == if c.repeatTime < 1 then 1 else c.repeatTime
  }

  ghost predicate Numbered(net: Net, n: nat)
    requires net.Shaped()
  {
    exists u, i :: net.HasSlot(u, i) && net.num[u][i] == n
  }

  /** The nodes are those that the calls name. */
  ghost predicate NodesOf(nums: map<string, nat>, calls: seq<EdgeCall>) {
    forall s :: s in nums <==> exists k :: 0 <= k < |calls| && (s == Trim(calls[k].beg) || s == Trim(calls[k].end))
  }

  /** Every slot carries what the call of its number gave. */
  ghost predicate SlotsOf(nums: map<string, nat>, net: Net, b: Budgets, names: seq<seq<string>>, calls: seq<EdgeCall>)
    requires Parallel(net, b, names)
  {
    forall u, i :: net.HasSlot(u, i) ==> 1 <= net.num[u][i] <= |calls| && SlotOf(nums, net, b, names, u, i, calls[net.num[u][i] - 1])
  }

  /** In each row the slots stand in the order of their numbers. */
  ghost predicate Ordered(net: Net)
    requires net.Shaped()
  {
    forall u, i, j :: net.HasSlot(u, i) && net.HasSlot(u, j) && i < j ==> net.num[u][i] < net.num[u][j]
  }

  /** The graph has one slot for each call and no other. */
  ghost predicate Carries(nums: map<string, nat>, net: Net, b: Budgets, names: seq<seq<string>>, calls: seq<EdgeCall>) {
    && Parallel(net, b, names) && NodesOf(nums, calls) && SlotsOf(nums, net, b, names, calls) && Ordered(net)
    && forall n :: 1 <= n <= |calls| ==> Numbered(net, n)
  }

  lemma NoCalls(net: Net, b: Budgets, names: seq<seq<string>>)
    requires net == Net([], [], []) && b == [] && names == []
    ensures Carries(map[], net, b, names, [])
  {
  }

  /** Every row is as it was, and that of node `u0` has one slot more, with what a call gives. */
  ghost predicate OneSlotMore(net: Net, b: Budgets, names: seq<seq<string>>, net': Net, b': Budgets, names': seq<seq<string>>,
                              u0: nat, end: nat, n: nat, c: EdgeCall) {
    && |net.num| == |net.step| == |b| == |names| == |net.to| <= |net'.to| == |net'.num| == |net'.step| == |b'| == |names'| && u0 < |net'.to|
    && forall u :: 0 <= u < |net'.to| ==>
         && net'.to[u] == (if u < |net.to| then net.to[u] else []) + (if u == u0 then [end] else [])
         && net'.num[u] == (if u < |net.to| then net.num[u] else []) + (if u == u0 then [n] else [])
         && net'.step[u] == (if u < |net.to| then net.step[u] else []) + (if u == u0 then [c.stepNumber] else [])
         && names'[u] == (if u < |net.to| then names[u] else []) + (if u == u0 then [c.stepName] else [])
         && b'[u] == (if u < |net.to| then b[u] else []) + (if u == u0 then [if c.repeatTime < 1 then 1 else c.repeatTime] else [])
  }

  ghost predicate SameSlot(net: Net, b: Budgets, names: seq<seq<string>>, net': Net, b': Budgets, names': seq<seq<string>>, u: nat, i: nat)
    requires Parallel(net, b, names) && Parallel(net', b', names') && net'.HasSlot(u, i)
  {
    && net.HasSlot(u, i) && net'.num[u][i] == net.num[u][i] && net'.to[u][i] == net.to[u][i] && net'.step[u][i] == net.step[u][i]
    && names'[u][i] == names[u][i] && b'[u][i] == b[u][i]
  }

  lemma NewSlot(net: Net, b: Budgets, names: seq<seq<string>>, net': Net, b': Budgets, names': seq<seq<string>>,
                u0: nat, end: nat, n: nat, c: EdgeCall, u: nat, i: nat)
    requires Parallel(net, b, names) && Parallel(net', b', names') && OneSlotMore(net, b, names, net', b', names', u0, end, n, c)
    ensures u0 < |net'.to| && net'.HasSlot(u0, |net'.to[u0]| - 1) && (net.HasSlot(u, i) ==> net'.HasSlot(u, i) && SameSlot(net, b, names, net', b', names', u, i))
    ensures net'.HasSlot(u, i) ==>
              if u == u0 && i == |net'.to[u0]| - 1 then
                && net'.num[u][i] == n && net'.to[u][i] == end && net'.step[u][i] == c.stepNumber
                && names'[u][i] == c.stepName && b'[u][i] == if c.repeatTime < 1 then 1 else c.repeatTime
              else SameSlot(net, b, names, net', b', names', u, i)
  {
  }

  lemma OneMoreCall(nums: map<string, nat>, net: Net, b: Budgets, names: seq<seq<string>>,
                    nums': map<string, nat>, net': Net, b': Budgets, names': seq<seq<string>>, calls: seq<EdgeCall>, c: EdgeCall)
    requires Carries(nums, net, b, names, calls) && Parallel(net', b', names')
    requires Trim(c.beg) in nums' && Trim(c.end) in nums' && nums'.Keys == nums.Keys + {Trim(c.beg), Trim(c.end)}
    requires forall s :: s in nums ==> s in nums' && nums'[s] == nums[s]
    requires OneSlotMore(net, b, names, net', b', names', nums'[Trim(c.beg)], nums'[Trim(c.end)], |calls| + 1, c)
    ensures Carries(nums', net', b', names', calls + [c])
  {
    hide OneSlotMore, Trim, Net.HasSlot, Numbered, NodesOf, SlotsOf, SlotOf, Ordered;
    var all, u0, end := calls + [c], nums'[Trim(c.beg)], nums'[Trim(c.end)];
    NamesOfCalls(nums, nums', calls, c);
    SlotsKept(nums, net, b, names, nums', net', b', names', calls, c);
    forall n | 1 <= n <= |all| ensures Numbered(net', n) {
      StillNumbered(net, b, names, net', b', names', u0, end, |all|, c, n);
    }
    StillOrdered(nums, net, b, names, net', b', names', u0, end, calls, c);
  }

  lemma SlotsKept(nums: map<string, nat>, net: Net, b: Budgets, names: seq<seq<string>>,
                  nums': map<string, nat>, net': Net, b': Budgets, names': seq<seq<string>>, calls: seq<EdgeCall>, c: EdgeCall)
    requires Parallel(net, b, names) && SlotsOf(nums, net, b, names, calls) && Parallel(net', b', names')
    requires Trim(c.beg) in nums' && Trim(c.end) in nums' && forall s :: s in nums ==> s in nums' && nums'[s] == nums[s]
    requires OneSlotMore(net, b, names, net', b', names', nums'[Trim(c.beg)], nums'[Trim(c.end)], |calls| + 1, c)
    ensures SlotsOf(nums', net', b', names', calls + [c])
  {
    hide OneSlotMore, Trim, SlotsOf, SlotOf;
    forall u: nat, i: nat | net'.HasSlot(u, i)
      ensures 1 <= net'.num[u][i] <= |calls + [c]| && SlotOf(nums', net', b', names', u, i, (calls + [c])[net'.num[u][i] - 1])
    {
      SlotKept(nums, net, b, names, nums', net', b', names', calls, c, u, i);
    }
    AllSlots(nums', net', b', names', calls + [c]);
  }

  lemma AllSlots(nums: map<string, nat>, net: Net, b: Budgets, names: seq<seq<string>>, calls: seq<EdgeCall>)
    requires Parallel(net, b, names)
    requires forall u: nat, i: nat :: net.HasSlot(u, i) ==>
               1 <= net.num[u][i] <= |calls| && SlotOf(nums, net, b, names, u, i, calls[net.num[u][i] - 1])
    ensures SlotsOf(nums, net, b, names, calls)
  {
    hide SlotOf;
  }

  lemma SlotKept(nums: map<string, nat>, net: Net, b: Budgets, names: seq<seq<string>>,
                 nums': map<string, nat>, net': Net, b': Budgets, names': seq<seq<string>>, calls: seq<EdgeCall>, c: EdgeCall, u: nat, i: nat)
    requires Parallel(net, b, names) && SlotsOf(nums, net, b, names, calls) && Parallel(net', b', names') && net'.HasSlot(u, i)
    requires Trim(c.beg) in nums' && Trim(c.end) in nums' && forall s :: s in nums ==> s in nums' && nums'[s] == nums[s]
    requires OneSlotMore(net, b, names, net', b', names', nums'[Trim(c.beg)], nums'[Trim(c.end)], |calls| + 1, c)
    ensures 1 <= net'.num[u][i] <= |calls + [c]| && SlotOf(nums', net', b', names', u, i, (calls + [c])[net'.num[u][i] - 1])
  {
    hide OneSlotMore, Trim;
    NewSlot(net, b, names, net', b', names', nums'[Trim(c.beg)], nums'[Trim(c.end)], |calls| + 1, c, u, i);
    if net.HasSlot(u, i) {
      assert SlotOf(nums, net, b, names, u, i, calls[net.num[u][i] - 1]);
    }
  }

  lemma StillNumbered(net: Net, b: Budgets, names: seq<seq<string>>, net': Net, b': Budgets, names': seq<seq<string>>,
                      u0: nat, end: nat, n: nat, c: EdgeCall, k: nat)
    requires Parallel(net, b, names) && Parallel(net', b', names') && OneSlotMore(net, b, names, net', b', names', u0, end, n, c)
    requires k == n || Numbered(net, k)
    ensures Numbered(net', k)
  {
    hide OneSlotMore;
    NewSlot(net, b, names, net', b', names', u0, end, n, c, 0, 0);
    NewSlot(net, b, names, net', b', names', u0, end, n, c, u0, |net'.to[u0]| - 1);
    if k != n {
      var u, i :| net.HasSlot(u, i) && net.num[u][i] == k;
      NewSlot(net, b, names, net', b', names', u0, end, n, c, u, i);
    }
  }

  lemma StillOrdered(nums: map<string, nat>, net: Net, b: Budgets, names: seq<seq<string>>, net': Net, b': Budgets, names': seq<seq<string>>,
                     u0: nat, end: nat, calls: seq<EdgeCall>, c: EdgeCall)
    requires Parallel(net, b, names) && SlotsOf(nums, net, b, names, calls) && Ordered(net) && Parallel(net', b', names')
    requires OneSlotMore(net, b, names, net', b', names', u0, end, |calls| + 1, c)
    ensures Ordered(net')
  {
    hide OneSlotMore, SlotOf, Trim;
    forall u: nat, i: nat, j: nat | net'.HasSlot(u, i) && net'.HasSlot(u, j) && i < j ensures net'.num[u][i] < net'.num[u][j] {
      NewSlot(net, b, names, net', b', names', u0, end, |calls| + 1, c, u, i);
      NewSlot(net, b, names, net', b', names', u0, end, |calls| + 1, c, u, j);
    }
  }

  lemma NamesOfCalls(nums: map<string, nat>, nums': map<string, nat>, calls: seq<EdgeCall>, c: EdgeCall)
    requires NodesOf(nums, calls) && nums'.Keys == nums.Keys + {Trim(c.beg), Trim(c.end)}
    ensures NodesOf(nums', calls + [c])
  {
    hide Trim;
    var all := calls + [c];
    forall s ensures s in nums' <==> exists k :: 0 <= k < |all| && (s == Trim(all[k].beg) || s == Trim(all[k].end)) {
      assert s in nums'.Keys <==> s in nums.Keys || s == Trim(c.beg) || s == Trim(c.end);
      if k :| 0 <= k < |calls| && (s == Trim(calls[k].beg) || s == Trim(calls[k].end)) {
        assert all[k] == calls[k];
      }
      if k :| 0 <= k < |all| && (s == Trim(all[k].beg) || s == Trim(all[k].end)) {
        assert k < |calls| ==> all[k] == calls[k];
      }
      assert all[|calls|] == c;
    }
  }

  class MGraph {
    var nodeNumMap: map<string, nat>
    var nodeNameMap: map<nat, string>
    var edgeList: seq<seq<nat>>
    var edgeRepeatTimeList: Budgets
    var edgeNumberList: seq<seq<nat>>
    var edgeNameList: seq<seq<string>>
    var edgeStepList: seq<seq<int>>
    var stepNumMap: map<string, int>
    var edgeCount: nat
    var nodeCount: nat

    function Shape(): Net
      reads this
    {
      Net(edgeList, edgeNumberList, edgeStepList)
    }

    /** Node names and numbers are in one-to-one correspondence. */
    ghost predicate NamesValid()
      reads this
    {
      NamesOk(nodeNumMap, nodeNameMap, nodeCount)
    }

    ghost predicate EdgesValid()
      reads this
    {
      && |edgeList| == nodeCount
      && EdgesOk(Shape(), edgeRepeatTimeList, edgeNameList, edgeCount)
    }

    ghost predicate Valid()
      reads this
    {
      NamesValid() && EdgesValid()
    }

    constructor ()
      ensures Valid() && nodeCount == 0 && edgeCount == 1 && nodeNumMap == map[] && stepNumMap == map[]
      ensures Shape() == Net([], [], []) && edgeRepeatTimeList == [] && edgeNameList == []
    {
      nodeNumMap, nodeNameMap := map[], map[];
      edgeList, edgeRepeatTimeList, edgeNumberList := [], [], [];
      edgeNameList, edgeStepList := [], [];
      stepNumMap := map[];
      edgeCount, nodeCount := 1, 0;
    }

    /** Adds a node once: a known name keeps its number, a new one gets the next
        number and an empty adjacency list. */
    method AddNode(nodeName: string) returns (n: nat)
      requires Valid()
      modifies this
      ensures Valid()
      ensures n < nodeCount == old(nodeCount) + if nodeName in old(nodeNumMap) then 0 else 1
      ensures nodeNumMap == old(nodeNumMap)[nodeName := n] && n == old(if nodeName in nodeNumMap then nodeNumMap[nodeName] else nodeCount)
      ensures edgeList == old(edgeList) + Blank(nodeCount - old(nodeCount))
      ensures edgeRepeatTimeList == old(edgeRepeatTimeList) + Blank(nodeCount - old(nodeCount))
      ensures edgeNumberList == old(edgeNumberList) + Blank(nodeCount - old(nodeCount))
      ensures edgeNameList == old(edgeNameList) + Blank(nodeCount - old(nodeCount))
      ensures edgeStepList == old(edgeStepList) + Blank(nodeCount - old(nodeCount))
      ensures edgeCount == old(edgeCount) && stepNumMap == old(stepNumMap)
    {
      hide EdgesOk, NamesOk, Blank;
      Sizes(Shape(), edgeRepeatTimeList, edgeNameList, edgeCount);
      NoneOrOne(edgeList);
      NoneOrOne(edgeRepeatTimeList);
      NoneOrOne(edgeNumberList);
      NoneOrOne(edgeNameList);
      NoneOrOne(edgeStepList);
      NameAdded(nodeNumMap, nodeNameMap, nodeCount, nodeName);
      if nodeName !in nodeNumMap {
        NodeAppended(Shape(), edgeRepeatTimeList, edgeNameList, edgeCount);
        nodeNumMap := nodeNumMap[nodeName := nodeCount];
        nodeNameMap := nodeNameMap[nodeCount := nodeName];
        edgeList := edgeList + [[]];
        edgeRepeatTimeList := edgeRepeatTimeList + [[]];
        edgeNumberList := edgeNumberList + [[]];
        edgeNameList := edgeNameList + [[]];
        edgeStepList := edgeStepList + [[]];
        nodeCount := nodeCount + 1;
      }
      n := nodeNumMap[nodeName];
    }

    /** The list updates of `AddEdge` between two known nodes. */
    method AppendSlot(beg: nat, end: nat, stepName: string, stepNumber: int, budget: nat)
      requires Valid() && beg < nodeCount && end < nodeCount && budget >= 1
      modifies this`edgeList, this`edgeRepeatTimeList, this`edgeNameList, this`edgeNumberList, this`edgeStepList,
               this`stepNumMap, this`edgeCount
      ensures Valid()
      ensures |old(edgeRepeatTimeList)| == |old(edgeNameList)| == |old(edgeNumberList)| == |old(edgeStepList)| == nodeCount
      ensures edgeList == old(edgeList)[beg := old(edgeList)[beg] + [end]]
      ensures edgeRepeatTimeList == old(edgeRepeatTimeList)[beg := old(edgeRepeatTimeList)[beg] + [budget]]
      ensures edgeNameList == old(edgeNameList)[beg := old(edgeNameList)[beg] + [stepName]]
      ensures edgeNumberList == old(edgeNumberList)[beg := old(edgeNumberList)[beg] + [old(edgeCount)]]
      ensures edgeStepList == old(edgeStepList)[beg := old(edgeStepList)[beg] + [stepNumber]]
      ensures edgeCount == old(edgeCount) + 1 && stepNumMap == old(stepNumMap)[stepName := stepNumber]
    {
      SlotAppended(Shape(), edgeRepeatTimeList, edgeNameList, edgeCount, beg, end, stepNumber, stepName, budget);
      edgeList := edgeList[beg := edgeList[beg] + [end]];
      edgeRepeatTimeList := edgeRepeatTimeList[beg := edgeRepeatTimeList[beg] + [budget]];
      edgeNameList := edgeNameList[beg := edgeNameList[beg] + [stepName]];
      edgeNumberList := edgeNumberList[beg := edgeNumberList[beg] + [edgeCount]];
      edgeStepList := edgeStepList[beg := edgeStepList[beg] + [stepNumber]];
      stepNumMap := stepNumMap[stepName := stepNumber];
      edgeCount := edgeCount + 1;
    }

    /** Adds missing end points, then appends one slot to the list of the begin node. Nodes keep
        their numbers, and every row is as it was, except that the begin node's has one slot more
        at its end: with the end node, the next edge number, the step and a budget of at least
        one. */
    method AddEdge(begNodeName: string, endNodeName: string, stepName: string, stepNumber: int, repeatTime: int)
      requires Valid()
      modifies this
      ensures Valid() && old(Valid())
      ensures Trim(begNodeName) in nodeNumMap && Trim(endNodeName) in nodeNumMap && old(nodeCount) <= nodeCount
      ensures nodeNumMap.Keys == old(nodeNumMap.Keys) + {Trim(begNodeName), Trim(endNodeName)}
      ensures forall s :: s in old(nodeNumMap) ==> s in nodeNumMap && nodeNumMap[s] == old(nodeNumMap)[s]
      ensures Trim(begNodeName) !in old(nodeNumMap) ==> nodeNumMap[Trim(begNodeName)] == old(nodeCount)
      ensures var beg, end := nodeNumMap[Trim(begNodeName)], nodeNumMap[Trim(endNodeName)];
              && beg < nodeCount && end < nodeCount
              && |edgeList| == |edgeNumberList| == |edgeStepList| == |edgeNameList| == |edgeRepeatTimeList| == nodeCount
              && forall u :: 0 <= u < nodeCount ==>
                   && edgeList[u] == old(if u < nodeCount then edgeList[u] else []) + (if u == beg then [end] else [])
                   && edgeNumberList[u] == old(if u < nodeCount then edgeNumberList[u] else []) + (if u == beg then [old(edgeCount)] else [])
                   && edgeStepList[u] == old(if u < nodeCount then edgeStepList[u] else []) + (if u == beg then [stepNumber] else [])
                   && edgeNameList[u] == old(if u < nodeCount then edgeNameList[u] else []) + (if u == beg then [stepName] else [])
                   && edgeRepeatTimeList[u] == old(if u < nodeCount then edgeRepeatTimeList[u] else [])
                                               + (if u == beg then [if repeatTime < 1 then 1 else repeatTime] else [])
      ensures edgeCount == old(edgeCount) + 1 && stepNumMap == old(stepNumMap)[stepName := stepNumber]
    {
      hide EdgesOk, NamesOk, Trim;
      Sizes(Shape(), edgeRepeatTimeList, edgeNameList, edgeCount);
      var begNodeNum, endNodeNum := AddEndPoints(Trim(begNodeName), Trim(endNodeName));
      AppendSlot(begNodeNum, endNodeNum, stepName, stepNumber, if repeatTime < 1 then 1 else repeatTime);
    }

    method AddEndPoints(begNodeName: string, endNodeName: string) returns (beg: nat, end: nat)
      requires Valid()
      modifies this
      ensures Valid() && beg < nodeCount && end < nodeCount && old(nodeCount) <= nodeCount
      ensures nodeNumMap == old(nodeNumMap)[begNodeName := beg][endNodeName := end] && nodeNumMap[begNodeName] == beg
      ensures forall s :: s in old(nodeNumMap) ==> nodeNumMap[s] == old(nodeNumMap)[s]
      ensures begNodeName !in old(nodeNumMap) ==> beg == old(nodeCount)
      ensures edgeList == old(edgeList) + Blank(nodeCount - old(nodeCount))
      ensures edgeRepeatTimeList == old(edgeRepeatTimeList) + Blank(nodeCount - old(nodeCount))
      ensures edgeNumberList == old(edgeNumberList) + Blank(nodeCount - old(nodeCount))
      ensures edgeNameList == old(edgeNameList) + Blank(nodeCount - old(nodeCount))
      ensures edgeStepList == old(edgeStepList) + Blank(nodeCount - old(nodeCount))
      ensures edgeCount == old(edgeCount) && stepNumMap == old(stepNumMap)
    {
      hide EdgesOk, NamesOk, Blank;
      beg := AddNode(begNodeName);
      ghost var m, n := nodeCount - old(nodeCount), if endNodeName in nodeNumMap then 0 else 1;
      end := AddNode(endNodeName);
      BlankTwice(old(edgeList), m, n);
      BlankTwice(old(edgeRepeatTimeList), m, n);
      BlankTwice(old(edgeNumberList), m, n);
      BlankTwice(old(edgeNameList), m, n);
      BlankTwice(old(edgeStepList), m, n);
    }

    /** One more call after the calls so far. */
    method AddCall(c: EdgeCall, ghost calls: seq<EdgeCall>)
      requires Valid() && edgeCount == |calls| + 1 && Carries(nodeNumMap, Shape(), edgeRepeatTimeList, edgeNameList, calls)
      modifies this
      ensures Valid() && edgeCount == |calls| + 2 && Carries(nodeNumMap, Shape(), edgeRepeatTimeList, edgeNameList, calls + [c])
    {
      hide EdgesOk, NamesOk, Carries, Parallel, Trim;
      ghost var nums, net, b, names := nodeNumMap, Shape(), edgeRepeatTimeList, edgeNameList;
      Sizes(net, b, names, edgeCount);
      AddEdge(c.beg, c.end, c.stepName, c.stepNumber, c.repeatTime);
      Sizes(Shape(), edgeRepeatTimeList, edgeNameList, edgeCount);
      OneMoreCall(nums, net, b, names, nodeNumMap, Shape(), edgeRepeatTimeList, edgeNameList, calls, c);
    }

    /** A graph built by a list of edges, one call for each: it has the nodes named, and exactly
        one slot for each call, which has the number of the call, counted from one, and carries
        what the call gave; in each row the slots stand in the order of the calls. */
    static method Build(calls: seq<EdgeCall>) returns (g: MGraph)
      ensures fresh(g) && g.Valid() && g.edgeCount == |calls| + 1
      ensures Carries(g.nodeNumMap, g.Shape(), g.edgeRepeatTimeList, g.edgeNameList, calls)
    {
      hide EdgesOk, NamesOk, Carries;
      g := new MGraph();
      NoCalls(g.Shape(), g.edgeRepeatTimeList, g.edgeNameList);
      for k := 0 to |calls|
        invariant fresh(g) && g.Valid() && g.edgeCount == k + 1
        invariant Carries(g.nodeNumMap, g.Shape(), g.edgeRepeatTimeList, g.edgeNameList, calls[..k])
      {
        g.AddCall(calls[k], calls[..k]);
        assert calls[..k + 1] == calls[..k] + [calls[k]];
      }
      assert calls[..|calls|] == calls;
    }

    method GetNodeNum(nodeName: string) returns (n: int)
      requires NamesValid()
      ensures nodeName in nodeNumMap ==> n == nodeNumMap[nodeName] && 0 <= n < nodeCount
      ensures nodeName !in nodeNumMap ==> n == -1
    {
      if nodeName in nodeNumMap {
        return nodeNumMap[nodeName];
      }
      return -1;
    }
  }
}
