/** Test data: every combination of the parameter values, numbered from zero. */
module DataDiscards {
  import opened Collections
  import Graph
  import Multiples

  type Row = map<string, string>

  /** A parameter with its list of values; a single value is a list of one. */
  datatype Param = Param(name: string, kind: string, values: seq<string>)

  /** What turns a value and a parameter type into the text to use. */
  type Convert = (string, string) -> string

  /** The text of the i-th value: never empty, a blank for an empty one. */
  function Shown(f: Convert, p: Param, i: nat): (r: string)
    requires i < |p.values|
    ensures |r| > 0 && (f(Graph.Trim(p.values[i]), p.kind) in {r, ""}) && (f(Graph.Trim(p.values[i]), p.kind) == "" ==> r == " ")
  {
    var v := f(Graph.Trim(p.values[i]), p.kind);
    if v == "" then " " else v
  }

  ghost function Names(ps: seq<Param>): set<string> {
    set p | p in ps :: p.name
  }

  // ---------- the recursion ----------

  /** The rows put out for the parameters `ps`, starting from the row `d`. */
  ghost function Rows(f: Convert, ps: seq<Param>, d: Row): seq<Row>
    decreases |ps|, 1, 0
  {
    if |ps| == 0 then [d] else RowsFrom(f, ps, d, 0)
  }

  /** The rows for the values of the first parameter from the i-th on. */
  ghost function RowsFrom(f: Convert, ps: seq<Param>, d: Row, i: nat): seq<Row>
    requires |ps| > 0 && i <= |ps[0].values|
    decreases |ps|, 0, |ps[0].values| - i
  {
    if i == |ps[0].values| then []
    else Rows(f, ps[1..], d[ps[0].name := Shown(f, ps[0], i)]) + RowsFrom(f, ps, d, i + 1)
  }

  ghost predicate SameOutside(d: Row, e: Row, names: set<string>) {
    forall n :: n !in names ==> (n in d <==> n in e) && (n in d ==> d[n] == e[n])
  }

  lemma AllRows(f: Convert, ps: seq<Param>, d: Row)
    requires |ps| > 0
    ensures Rows(f, ps, d) == RowsFrom(f, ps, d, 0)
  {
  }

  lemma RowsFirst(f: Convert, ps: seq<Param>, d: Row, i: nat)
    requires |ps| > 0 && i < |ps[0].values|
    ensures RowsFrom(f, ps, d, i) == Rows(f, ps[1..], d[ps[0].name := Shown(f, ps[0], i)]) + RowsFrom(f, ps, d, i + 1)
  {
  }

  lemma NoRows(f: Convert, ps: seq<Param>, d: Row)
    requires |ps| > 0
    ensures RowsFrom(f, ps, d, |ps[0].values|) == []
  {
  }

  /** What the starting row has under the names of the parameters does not matter. */
  lemma {:induction false} RowsAgree(f: Convert, ps: seq<Param>, d: Row, e: Row)
    requires SameOutside(d, e, Names(ps))
    ensures Rows(f, ps, d) == Rows(f, ps, e)
    decreases |ps|, 1, 0
  {
    if |ps| > 0 {
      RowsFromAgree(f, ps, d, e, 0);
    } else {
      assert d == e;
    }
  }

  lemma {:induction false} RowsFromAgree(f: Convert, ps: seq<Param>, d: Row, e: Row, i: nat)
    requires |ps| > 0 && i <= |ps[0].values| && SameOutside(d, e, Names(ps))
    ensures RowsFrom(f, ps, d, i) == RowsFrom(f, ps, e, i)
    decreases |ps|, 0, |ps[0].values| - i
  {
    if i < |ps[0].values| {
      NamesCons(ps);
      RowsAgree(f, ps[1..], d[ps[0].name := Shown(f, ps[0], i)], e[ps[0].name := Shown(f, ps[0], i)]);
      RowsFromAgree(f, ps, d, e, i + 1);
    }
  }

  lemma NamesCons(ps: seq<Param>)
    requires |ps| > 0
    ensures Names(ps) == {ps[0].name} + Names(ps[1..])
  {
    assert ps == [ps[0]] + ps[1..];
  }

  /** The row left behind when all rows are out. */
  ghost function Left(f: Convert, ps: seq<Param>, d: Row): Row
    decreases |ps|, 1, 0
  {
    if |ps| == 0 then d else LeftAfter(f, ps, d, |ps[0].values|)
  }

  ghost function LeftAfter(f: Convert, ps: seq<Param>, d: Row, i: nat): Row
    requires |ps| > 0 && i <= |ps[0].values|
    decreases |ps|, 0, i
  {
    if i == 0 then d else Left(f, ps[1..], LeftAfter(f, ps, d, i - 1)[ps[0].name := Shown(f, ps[0], i - 1)])
  }

  /** Only the names of the parameters are written. */
  lemma {:induction false} LeftOutside(f: Convert, ps: seq<Param>, d: Row)
    ensures SameOutside(Left(f, ps, d), d, Names(ps))
    decreases |ps|, 1, 0
  {
    if |ps| > 0 {
      LeftAfterOutside(f, ps, d, |ps[0].values|);
    }
  }

  lemma {:induction false} LeftAfterOutside(f: Convert, ps: seq<Param>, d: Row, i: nat)
    requires |ps| > 0 && i <= |ps[0].values|
    ensures SameOutside(LeftAfter(f, ps, d, i), d, Names(ps))
    decreases |ps|, 0, i
  {
    if i > 0 {
      NamesCons(ps);
      LeftAfterOutside(f, ps, d, i - 1);
      LeftOutside(f, ps[1..], LeftAfter(f, ps, d, i - 1)[ps[0].name := Shown(f, ps[0], i - 1)]);
    }
  }

  lemma NothingLeft(f: Convert, ps: seq<Param>, d: Row)
    ensures Left(f, [], d) == d
    ensures |ps| > 0 ==> LeftAfter(f, ps, d, 0) == d && Left(f, ps, d) == LeftAfter(f, ps, d, |ps[0].values|)
  {
  }

  lemma LeftStep(f: Convert, ps: seq<Param>, d: Row, i: nat)
    requires |ps| > 0 && i < |ps[0].values|
    ensures LeftAfter(f, ps, d, i + 1) == Left(f, ps[1..], LeftAfter(f, ps, d, i)[ps[0].name := Shown(f, ps[0], i)])
  {
  }

  /** The parameters whose names are asked for, in order. */
  function Kept(ps: seq<Param>, names: set<string>): seq<Param> {
    if |ps| == 0 then [] else (if ps[0].name in names then [ps[0]] else []) + Kept(ps[1..], names)
  }

  lemma {:induction false} KeptMember(ps: seq<Param>, names: set<string>, p: Param)
    ensures p in Kept(ps, names) <==> p in ps && p.name in names
  {
    if |ps| > 0 {
      KeptMember(ps[1..], names, p);
      assert ps == [ps[0]] + ps[1..];
    }
  }

  lemma {:induction false} KeptSnoc(ps: seq<Param>, names: set<string>, p: Param)
    ensures Kept(ps + [p], names) == Kept(ps, names) + if p.name in names then [p] else []
  {
    if |ps| > 0 {
      assert (ps + [p])[1..] == ps[1..] + [p];
      KeptSnoc(ps[1..], names, p);
    } else {
      assert (ps + [p])[1..] == [];
    }
  }

  /** They are those at the positions `at`, which are all positions with a name asked for, in
      order and each once. */
  lemma {:induction false} KeptPositions(ps: seq<Param>, names: set<string>) returns (at: seq<nat>)
    ensures |at| == |Kept(ps, names)| && forall k :: 0 <= k < |at| ==> at[k] < |ps| && Kept(ps, names)[k] == ps[at[k]]
    ensures forall j, k :: 0 <= j < k < |at| ==> at[j] < at[k]
    ensures forall i: nat :: i in at <==> i < |ps| && ps[i].name in names
  {
    at := [];
    if |ps| > 0 {
      var n := |ps| - 1;
      assert ps == ps[..n] + [ps[n]];
      at := KeptPositions(ps[..n], names);
      KeptSnoc(ps[..n], names, ps[n]);
      if ps[n].name in names {
        at := at + [n];
      }
    }
  }

  class MDataAlgoDiscards {
    var datasMap: map<nat, Row>
    var paramSet: set<string>
    var dataMap: Row

    /** The rows are numbered from zero without gaps. */
    ghost predicate Valid()
      reads this
    {
      forall k: nat :: k in datasMap <==> k < |datasMap|
    }

    ghost function Listed(): (rows: seq<Row>)
      requires Valid()
      reads this
      ensures |rows| == |datasMap|
    {
      var m := datasMap;
      seq(|m|, k requires k in m => m[k])
    }

    constructor ()
      ensures Valid() && datasMap == map[] && dataMap == map[]
    {
      datasMap, paramSet, dataMap := map[], {}, map[];
    }

    method AddRow()
      requires Valid()
      modifies this`datasMap
      ensures Valid() && Listed() == old(Listed()) + [dataMap]
    {
      assert |datasMap| !in datasMap;
      datasMap := datasMap[|datasMap| := dataMap];
    }

    /** Puts out the rows for the parameters from `num` on. */
    method GetAlgoDiscardsResult(f: Convert, dataList: seq<Param>, num: nat)
      requires Valid() && num < |dataList|
      modifies this`datasMap, this`dataMap
      ensures Valid() && Listed() == old(Listed()) + Rows(f, dataList[num..], old(dataMap))
      ensures dataMap == Left(f, dataList[num..], old(dataMap))
      decreases |dataList| - num, 1
    {
      hide Rows, RowsFrom, Shown, SameOutside, Names, Left, LeftAfter;
      ghost var ps, d, before := dataList[num..], dataMap, Listed();
      var p := dataList[num];
      var i := 0;
      AllRows(f, ps, d);
      NothingLeft(f, ps, d);
      while i < |p.values|
        invariant 0 <= i <= |p.values| && Valid() && dataMap == LeftAfter(f, ps, d, i)
        invariant Listed() + RowsFrom(f, ps, d, i) == before + Rows(f, ps, d)
      {
        ghost var seen := Listed();
        LeftAfterOutside(f, ps, d, i);
        LeftStep(f, ps, d, i);
        UseValue(f, dataList, num, i, d);
        RowsFirst(f, ps, d, i);
        i := i + 1;
        assert seen + (Rows(f, ps[1..], d[p.name := Shown(f, p, i - 1)]) + RowsFrom(f, ps, d, i)) == Listed() + RowsFrom(f, ps, d, i);
      }
      NoRows(f, ps, d);
    }

    /** The loop body: puts the i-th value into the row and goes on to the other parameters. */
    method UseValue(f: Convert, dataList: seq<Param>, num: nat, i: nat, ghost d: Row)
      requires Valid() && num < |dataList| && i < |dataList[num].values| && SameOutside(dataMap, d, Names(dataList[num..]))
      modifies this`datasMap, this`dataMap
      ensures Valid()
      ensures Listed() == old(Listed()) + Rows(f, dataList[num..][1..], d[dataList[num].name := Shown(f, dataList[num], i)])
      ensures dataMap == Left(f, dataList[num..][1..], old(dataMap)[dataList[num].name := Shown(f, dataList[num], i)])
      decreases |dataList| - num, 0
    {
      hide RowsFrom, Shown, Left;
      ghost var ps := dataList[num..];
      var p := dataList[num];
      NamesCons(ps);
      dataMap := dataMap[p.name := Shown(f, p, i)];
      RowsAgree(f, ps[1..], dataMap, d[p.name := Shown(f, p, i)]);
      if num + 1 == |dataList| {
        NothingLeft(f, ps[1..], dataMap);
        AddRow();
      } else {
        assert ps[1..] == dataList[num + 1..];
        GetAlgoDiscardsResult(f, dataList, num + 1);
      }
    }

    /** Drops the parameters that are not asked for. */
    static method DropOthers(paramList: seq<Param>, names: set<string>) returns (tmp: seq<Param>)
      ensures tmp == Kept(paramList, names) && forall p :: p in tmp <==> p in paramList && p.name in names
    {
      tmp := paramList;
      var i := 0;
      while i < |tmp|
        invariant 0 <= i <= |tmp| && tmp[..i] + Kept(tmp[i..], names) == Kept(paramList, names)
        decreases |tmp| - i
      {
        assert tmp[i..][1..] == tmp[i + 1..];
        if tmp[i].name !in names {
          ghost var was := tmp;
          tmp := tmp[..i] + tmp[i + 1..];
          assert tmp[i..] == was[i + 1..] && tmp[..i] == was[..i];
        } else {
          assert tmp[..i + 1] == tmp[..i] + [tmp[i]];
          i := i + 1;
        }
      }
      assert tmp[..i] == tmp;
      forall p ensures p in tmp <==> p in paramList && p.name in names { KeptMember(paramList, names, p); }
    }

    /** All combinations of the parameters asked for, numbered from zero; nothing for an empty
        parameter list. Every row has the names asked for that some parameter has, and those left
        from before: the row that is built up is not emptied between calls. */
    method GenData(f: Convert, paramList: seq<Param>, names: set<string>) returns (r: Option<map<nat, Row>>)
      modifies this
      ensures paramList == [] ==> r == None && (datasMap, paramSet, dataMap) == old((datasMap, paramSet, dataMap))
      ensures paramList != [] ==>
                var kept := Kept(paramList, names);
                && r == Some(datasMap) && paramSet == names && Valid() && dataMap == Left(f, kept, old(dataMap))
                && Listed() == if kept == [] then [] else Rows(f, kept, old(dataMap))
      ensures paramList != [] ==>
                forall k :: k in datasMap ==>
                  datasMap[k].Keys == old(dataMap.Keys) + set p | p in paramList && p.name in names :: p.name
      ensures paramList != [] ==>
                (datasMap == map[] <==> (forall p :: p in paramList ==> p.name !in names) || exists p :: p in paramList && p.name in names && p.values == [])
    {
      hide Rows, Left, Kept;
      if |paramList| == 0 {
        return None;
      }
      datasMap := map[];
      paramSet := names;
      var tmp := DropOthers(paramList, names);
      assert Listed() == [];
      NothingLeft(f, tmp, dataMap);
      if |tmp| > 0 {
        assert tmp[0..] == tmp;
        GetAlgoDiscardsResult(f, tmp, 0);
        NamesAsked(f, paramList, names, tmp, old(dataMap));
        assert forall k :: k in datasMap ==> datasMap[k] == Listed()[k];
      }
      return Some(datasMap);
    }
  }

  // ---------- which combination a row holds ----------

  /** The number of combinations. */
  function Count(ps: seq<Param>): nat {
    if |ps| == 0 then 1 else Count(ps[1..]) * |ps[0].values|
  }

  /** One value index for each parameter. */
  ghost predicate Choice(ps: seq<Param>, c: seq<nat>) {
    |c| == |ps| && forall i :: 0 <= i < |ps| ==> c[i] < |ps[i].values|
  }

  /** The row number of a choice: the first parameter is the most significant digit. */
  function Number(ps: seq<Param>, c: seq<nat>): nat
    requires |c| == |ps|
  {
    if |ps| == 0 then 0 else Count(ps[1..]) * c[0] + Number(ps[1..], c[1..])
  }

  /** The digits of a row number. */
  function Digits(ps: seq<Param>, k: nat): (c: seq<nat>)
    requires Count(ps) > 0
    ensures |c| == |ps|
  {
    if |ps| == 0 then []
    else
      RestPositive(ps);
      [k / Count(ps[1..])] + Digits(ps[1..], k % Count(ps[1..]))
  }

  lemma RestPositive(ps: seq<Param>)
    requires |ps| > 0 && Count(ps) > 0
    ensures Count(ps[1..]) > 0 && |ps[0].values| > 0
  {
  }

  /** One digit in front of a smaller number. */
  lemma DigitFirst(n: nat, size: nat, i: nat, j: nat)
    requires j < size && i < n
    ensures size * i + j < size * n && (size * i + j) / size == i && (size * i + j) % size == j
  {
    var k := size * i + j;
    assert k == size * (k / size) + k % size;
    Multiples.Distribute(size, n, i);
    Multiples.Times(size, n - i);
    Multiples.Distribute(size, k / size, i);
    Multiples.Times(size, k / size - i);
  }

  lemma OneMore(size: nat, x: nat)
    requires x > 0
    ensures size * x == size + size * (x - 1)
  {
    Multiples.Distribute(size, x, x - 1);
  }

  lemma ChoiceRest(ps: seq<Param>, c: seq<nat>)
    requires |ps| > 0
    ensures Choice(ps, c) <==> |c| > 0 && c[0] < |ps[0].values| && Choice(ps[1..], c[1..])
    ensures Choice(ps, c) ==> |c| == |ps| && |c[1..]| == |ps[1..]|
  {
    if |c| > 0 && c[0] < |ps[0].values| && Choice(ps[1..], c[1..]) {
      forall i | 0 <= i < |ps| ensures c[i] < |ps[i].values| {
        if i > 0 { assert c[1..][i - 1] < |ps[1..][i - 1].values|; }
      }
    }
  }

  /** Every choice has a row number of its own. */
  lemma {:induction false} DigitsOfNumber(ps: seq<Param>, c: seq<nat>)
    requires Choice(ps, c)
    ensures Number(ps, c) < Count(ps) && Digits(ps, Number(ps, c)) == c
  {
    if |ps| > 0 {
      ChoiceRest(ps, c);
      DigitsOfNumber(ps[1..], c[1..]);
      DigitFirst(|ps[0].values|, Count(ps[1..]), c[0], Number(ps[1..], c[1..]));
      assert c == [c[0]] + c[1..];
    }
  }

  /** Of two choices the one with the earlier value where they first differ has the lower number. */
  lemma {:induction false} EarlierFirst(ps: seq<Param>, c: seq<nat>, e: seq<nat>, i: nat)
    requires Choice(ps, c) && Choice(ps, e) && i < |ps| && c[..i] == e[..i] && c[i] < e[i]
    ensures Number(ps, c) < Number(ps, e)
    decreases |ps|
  {
    hide Count;
    ChoiceRest(ps, c);
    ChoiceRest(ps, e);
    var size := Count(ps[1..]);
    if i == 0 {
      DigitsOfNumber(ps[1..], c[1..]);
      Multiples.Distribute(size, e[0], c[0]);
      Multiples.Times(size, e[0] - c[0]);
    } else {
      assert c[0] == c[..i][0] == e[..i][0] == e[0];
      assert c[1..][..i - 1] == c[..i][1..] && e[1..][..i - 1] == e[..i][1..];
      EarlierFirst(ps[1..], c[1..], e[1..], i - 1);
    }
  }

  lemma Quotient(n: nat, size: nat, k: nat)
    requires k < size * n
    ensures size > 0 && k / size < n && k == size * (k / size) + k % size
  {
    var q := k / size;
    Multiples.Distribute(size, n, q);
    Multiples.Times(size, n - q);
  }

  /** Every row number is that of a choice. */
  lemma {:induction false} NumberOfDigits(ps: seq<Param>, k: nat)
    requires k < Count(ps)
    ensures Choice(ps, Digits(ps, k)) && Number(ps, Digits(ps, k)) == k
  {
    if |ps| > 0 {
      Quotient(|ps[0].values|, Count(ps[1..]), k);
      NumberOfDigits(ps[1..], k % Count(ps[1..]));
      var c := Digits(ps, k);
      assert c[1..] == Digits(ps[1..], k % Count(ps[1..]));
      ChoiceRest(ps, c);
    }
  }

  /** The row of a choice. */
  ghost function Filled(f: Convert, ps: seq<Param>, d: Row, c: seq<nat>): Row
    requires Choice(ps, c)
  {
    if |ps| == 0 then d
    else
      ChoiceRest(ps, c);
      Filled(f, ps[1..], d[ps[0].name := Shown(f, ps[0], c[0])], c[1..])
  }

  /** The rows are as many as the choices, and the row of a choice stands at its number. */
  lemma {:induction false} RowOfChoice(f: Convert, ps: seq<Param>, d: Row, c: seq<nat>)
    requires Choice(ps, c)
    ensures Number(ps, c) < Count(ps) == |Rows(f, ps, d)| && Rows(f, ps, d)[Number(ps, c)] == Filled(f, ps, d, c)
    decreases |ps|, 1, 0
  {
    DigitsOfNumber(ps, c);
    RowsCount(f, ps, d);
    if |ps| > 0 {
      ChoiceRest(ps, c);
      RowFrom(f, ps, d, c, 0);
    }
  }

  lemma {:induction false} RowFrom(f: Convert, ps: seq<Param>, d: Row, c: seq<nat>, i: nat)
    requires |ps| > 0 && Choice(ps, c) && i <= c[0]
    ensures var at := Count(ps[1..]) * (c[0] - i) + Number(ps[1..], c[1..]);
            at < |RowsFrom(f, ps, d, i)| && RowsFrom(f, ps, d, i)[at] == Filled(f, ps, d, c)
    decreases |ps|, 0, |ps[0].values| - i
  {
    hide Number, Count, Shown, Choice, Rows, RowsFrom, Filled;
    ChoiceRest(ps, c);
    var e := d[ps[0].name := Shown(f, ps[0], i)];
    RowsCount(f, ps[1..], e);
    RowsFirst(f, ps, d, i);
    if i == c[0] {
      RowOfChoice(f, ps[1..], e, c[1..]);
      FilledRest(f, ps, d, c);
      assert Count(ps[1..]) * 0 == 0;
    } else {
      RowFrom(f, ps, d, c, i + 1);
      OneMore(Count(ps[1..]), c[0] - i);
      Behind(Rows(f, ps[1..], e), RowsFrom(f, ps, d, i + 1), Count(ps[1..]) * (c[0] - (i + 1)) + Number(ps[1..], c[1..]));
    }
  }

  lemma Behind<T>(here: seq<T>, rest: seq<T>, at: nat)
    requires at < |rest|
    ensures |here| + at < |here + rest| && (here + rest)[|here| + at] == rest[at]
  {
  }

  lemma {:induction false} RowsCount(f: Convert, ps: seq<Param>, d: Row)
    ensures |Rows(f, ps, d)| == Count(ps)
    decreases |ps|, 1, 0
  {
    if |ps| > 0 {
      RowsFromCount(f, ps, d, 0);
    }
  }

  lemma {:induction false} RowsFromCount(f: Convert, ps: seq<Param>, d: Row, i: nat)
    requires |ps| > 0 && i <= |ps[0].values|
    ensures |RowsFrom(f, ps, d, i)| == Count(ps[1..]) * (|ps[0].values| - i)
    decreases |ps|, 0, |ps[0].values| - i
  {
    hide Rows, RowsFrom, Count, Shown;
    if i < |ps[0].values| {
      RowsFirst(f, ps, d, i);
      RowsCount(f, ps[1..], d[ps[0].name := Shown(f, ps[0], i)]);
      RowsFromCount(f, ps, d, i + 1);
      OneMore(Count(ps[1..]), |ps[0].values| - i);
    } else {
      NoRows(f, ps, d);
    }
  }

  /** No later parameter has the same name. */
  ghost predicate LastOf(ps: seq<Param>, i: nat) {
    i < |ps| && forall j :: i < j < |ps| ==> ps[j].name != ps[i].name
  }

  lemma LastRest(ps: seq<Param>, i: nat)
    requires LastOf(ps, i)
    ensures i > 0 ==> LastOf(ps[1..], i - 1) && ps[1..][i - 1] == ps[i]
    ensures i == 0 ==> ps[0].name !in Names(ps[1..])
  {
  }

  lemma FilledRest(f: Convert, ps: seq<Param>, d: Row, c: seq<nat>)
    requires Choice(ps, c) && |ps| > 0
    ensures Choice(ps[1..], c[1..])
    ensures Filled(f, ps, d, c) == Filled(f, ps[1..], d[ps[0].name := Shown(f, ps[0], c[0])], c[1..])
  {
    ChoiceRest(ps, c);
  }

  /** A row has the names of the parameters, and whatever the starting row had under others. */
  lemma {:induction false} FilledNames(f: Convert, ps: seq<Param>, d: Row, c: seq<nat>)
    requires Choice(ps, c)
    ensures Filled(f, ps, d, c).Keys == d.Keys + Names(ps) && SameOutside(Filled(f, ps, d, c), d, Names(ps))
  {
    hide Shown;
    if |ps| > 0 {
      FilledRest(f, ps, d, c);
      NamesCons(ps);
      FilledNames(f, ps[1..], d[ps[0].name := Shown(f, ps[0], c[0])], c[1..]);
    }
  }

  /** A row has the chosen value under each name, the last one if a name comes twice. */
  lemma {:induction false} FilledValues(f: Convert, ps: seq<Param>, d: Row, c: seq<nat>, i: nat)
    requires Choice(ps, c) && i < |ps| && LastOf(ps, i)
    ensures ps[i].name in Filled(f, ps, d, c) && Filled(f, ps, d, c)[ps[i].name] == Shown(f, ps[i], c[i])
    decreases |ps|
  {
    hide Filled, Names, Shown, LastOf;
    FilledRest(f, ps, d, c);
    LastRest(ps, i);
    var e := d[ps[0].name := Shown(f, ps[0], c[0])];
    if i > 0 {
      FilledValues(f, ps[1..], e, c[1..], i - 1);
    } else {
      FilledNames(f, ps[1..], e, c[1..]);
    }
  }

  lemma RowKeys(f: Convert, ps: seq<Param>, d: Row)
    ensures forall k :: 0 <= k < |Rows(f, ps, d)| ==> Rows(f, ps, d)[k].Keys == d.Keys + Names(ps)
  {
    RowsCount(f, ps, d);
    forall k | 0 <= k < Count(ps) ensures Rows(f, ps, d)[k].Keys == d.Keys + Names(ps) {
      NumberOfDigits(ps, k);
      RowOfChoice(f, ps, d, Digits(ps, k));
      FilledNames(f, ps, d, Digits(ps, k));
    }
  }

  lemma NamesAsked(f: Convert, ps: seq<Param>, names: set<string>, kept: seq<Param>, d: Row)
    requires |kept| > 0 && forall p :: p in kept <==> p in ps && p.name in names
    ensures forall k :: 0 <= k < |Rows(f, kept, d)| ==> Rows(f, kept, d)[k].Keys == d.Keys + set p | p in ps && p.name in names :: p.name
    ensures |Rows(f, kept, d)| == 0 <==> exists p :: p in ps && p.name in names && p.values == []
    ensures exists p :: p in ps && p.name in names
  {
    RowKeys(f, kept, d);
    RowsCount(f, kept, d);
    NoValues(kept);
    hide Rows, Count;
    assert Names(kept) == set p | p in ps && p.name in names :: p.name;
    assert kept[0] in kept;
  }

  /** There is no combination exactly if some parameter has no value. */
  lemma {:induction false} NoValues(ps: seq<Param>)
    ensures Count(ps) == 0 <==> exists p :: p in ps && p.values == []
  {
    if |ps| > 0 {
      assert ps == [ps[0]] + ps[1..];
      NoValues(ps[1..]);
      Multiples.Times(Count(ps[1..]), |ps[0].values|);
      assert ps[0] in ps;
      if |ps[0].values| == 0 { assert Count(ps) == 0; }
      if p :| p in ps[1..] && p.values == [] { assert p in ps; }
    }
  }

  /** Every row has exactly the names asked for, if and only if the starting row had no other
      name: names of an earlier call stay in all rows of later ones. */
  lemma StaleNames(f: Convert, ps: seq<Param>, d: Row)
    requires Count(ps) > 0
    ensures (forall row :: row in Rows(f, ps, d) ==> row.Keys == Names(ps)) <==> d.Keys <= Names(ps)
  {
    RowsCount(f, ps, d);
    RowKeys(f, ps, d);
    assert Rows(f, ps, d)[0] in Rows(f, ps, d);
    if d.Keys <= Names(ps) {
      assert d.Keys + Names(ps) == Names(ps);
    }
  }

  /** The row left behind is the last one put out, so a later call starts from there. */
  lemma {:induction false} LeftIsLast(f: Convert, ps: seq<Param>, d: Row)
    requires Count(ps) > 0
    ensures |Rows(f, ps, d)| == Count(ps) && Left(f, ps, d) == Rows(f, ps, d)[Count(ps) - 1]
    decreases |ps|
  {
    hide Shown, Count;
    RowsCount(f, ps, d);
    if |ps| > 0 {
      RestPositive(ps);
      var n := |ps[0].values|;
      var x, e := LeftAfter(f, ps, d, n - 1)[ps[0].name := Shown(f, ps[0], n - 1)], d[ps[0].name := Shown(f, ps[0], n - 1)];
      LeftStep(f, ps, d, n - 1);
      NothingLeft(f, ps, d);
      LeftIsLast(f, ps[1..], x);
      LeftAfterOutside(f, ps, d, n - 1);
      NamesCons(ps);
      RowsAgree(f, ps[1..], x, e);
      RowsEnd(f, ps, d, 0);
      AllRows(f, ps, d);
    } else {
      NothingLeft(f, ps, d);
    }
  }

  /** The rows end with those for the last value of the first parameter. */
  lemma {:induction false} RowsEnd(f: Convert, ps: seq<Param>, d: Row, i: nat)
    requires |ps| > 0 && i < |ps[0].values| && Count(ps[1..]) > 0
    ensures var e := d[ps[0].name := Shown(f, ps[0], |ps[0].values| - 1)];
            var rows := RowsFrom(f, ps, d, i);
            |rows| > 0 && |Rows(f, ps[1..], e)| > 0 && rows[|rows| - 1] == Rows(f, ps[1..], e)[|Rows(f, ps[1..], e)| - 1]
    decreases |ps[0].values| - i
  {
    hide Shown, Rows, RowsFrom, Count;
    RowsFirst(f, ps, d, i);
    RowsCount(f, ps[1..], d[ps[0].name := Shown(f, ps[0], i)]);
    if i + 1 < |ps[0].values| {
      RowsEnd(f, ps, d, i + 1);
    } else {
      NoRows(f, ps, d);
    }
  }

  const FIRST := Param("a", "", ["x"])
  const SECOND := Param("b", "", ["y"])

  /** A call for one name, then one for another: the second result still has the first name. */
  method TwoCalls(f: Convert) returns (r: Option<map<nat, Row>>)
    ensures Names(Kept([FIRST, SECOND], {"b"})) == {"b"}
    ensures r.Some? && 0 in r.value && r.value[0].Keys == {"a", "b"}
  {
    r := OneThenOther(f, [FIRST, SECOND], FIRST, SECOND);
    KeptOne();
  }

  /** The same for any two parameters of one value each. */
  method OneThenOther(f: Convert, ps: seq<Param>, p: Param, q: Param) returns (r: Option<map<nat, Row>>)
    requires ps == [p, q] && p.name != q.name && |p.values| == |q.values| == 1
    ensures r.Some? && 0 in r.value && r.value[0].Keys == {p.name, q.name}
  {
    hide Kept;
    KeptOf(ps, p, q);
    var g := new MDataAlgoDiscards();
    r := CallForOne(g, f, ps, p);
    r := CallForOne(g, f, ps, q);
  }

  /** A call for one name, that of a parameter of one value. */
  method CallForOne(g: MDataAlgoDiscards, f: Convert, ps: seq<Param>, p: Param) returns (r: Option<map<nat, Row>>)
    requires Kept(ps, {p.name}) == [p] && |p.values| == 1 && ps != []
    modifies g
    ensures r.Some? && 0 in r.value && r.value[0] == g.dataMap && g.dataMap.Keys == old(g.dataMap.Keys) + {p.name}
  {
    hide Rows, Left, Shown, Kept;
    OneRow(f, p, g.dataMap);
    r := g.GenData(f, ps, {p.name});
    assert g.Listed()[0] == r.value[0];
  }

  lemma KeptOf(ps: seq<Param>, p: Param, q: Param)
    requires ps == [p, q] && p.name != q.name
    ensures Kept(ps, {p.name}) == [p] && Kept(ps, {q.name}) == [q]
  {
    assert ps[1..] == [q] && [q][1..] == [];
    assert Kept([q], {p.name}) == [] && Kept([q], {q.name}) == [q];
  }

  lemma KeptOne()
    ensures Names(Kept([FIRST, SECOND], {"b"})) == {"b"}
  {
    assert FIRST.name[0] != SECOND.name[0];
    KeptOf([FIRST, SECOND], FIRST, SECOND);
  }

  /** One parameter with one value. */
  lemma OneRow(f: Convert, p: Param, d: Row)
    requires |p.values| == 1
    ensures Rows(f, [p], d) == [d[p.name := Shown(f, p, 0)]] && Left(f, [p], d) == d[p.name := Shown(f, p, 0)]
  {
    assert [p][1..] == [];
    var e := d[p.name := Shown(f, p, 0)];
    assert Rows(f, [], e) == [e];
    NothingLeft(f, [p], d);
    LeftStep(f, [p], d, 0);
    NothingLeft(f, [p], e);
    assert RowsFrom(f, [p], d, 1) == [];
  }
}
