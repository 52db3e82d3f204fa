/**
 * The compilation result and the flat contract map built from it
 * (`createContracts` in src/index.ts).
 *
 * `result.contracts` is a JavaScript object `file -> contractName -> compiled contract`;
 * its keys are visited in insertion order by `Object.keys`, so each level is modelled as a
 * sequence. The accumulator is a JavaScript object too: assigning to an existing key
 * replaces its value but keeps the key's place in `Object.keys`, and a new key goes last.
 * `ContractMap` models exactly that: `names` in first-insertion order and `abis` the values.
 */
module ContractMaps {

  /** One entry of an ABI list, kept opaque as its JSON text. */
  type AbiEntry = string

  /** The `{ abi }` record stored in the widget's contract map. */
  datatype Contract = Contract(abi: seq<AbiEntry>)

  /** What the compiler reports for one contract; only `abi` is read, `metadata` stands for the rest. */
  datatype CompiledContract = CompiledContract(abi: seq<AbiEntry>, metadata: string)

  datatype NamedContract = NamedContract(name: string, compiled: CompiledContract)

  /** One key of `result.contracts`: a source file and its contracts in key order. */
  datatype SourceFile = SourceFile(fileName: string, contracts: seq<NamedContract>)

  /** The compilation result; only its `contracts` member is read. */
  datatype CompilationResult = CompilationResult(contracts: seq<SourceFile>)

  /** A JavaScript object from contract name to `{ abi }`, with its key order. */
  datatype ContractMap = ContractMap(names: seq<string>, abis: map<string, Contract>) {

    /** Keys are listed once each, and exactly the keys of the map are listed. */
    predicate Valid() {
      && (forall i, j :: 0 <= i < j < |names| ==> names[i] != names[j])
      && (forall n :: n in abis ==> n in names)
      && (forall i :: 0 <= i < |names| ==> names[i] in abis)
    }

    /** Property assignment `acc[name] = c`. */
    function Set(name: string, c: Contract): (r: ContractMap)
      ensures Valid() ==> r.Valid()
      ensures r.abis == abis[name := c]
      ensures name in abis ==> r.names == names
      ensures name !in abis ==> r.names == names + [name]
    {
      ContractMap(if name in abis then names else names + [name], abis[name := c])
    }
  }

  /** A well-formed map lists some name exactly when it has some key. */
  lemma NamesNonEmptyIff(m: ContractMap)
    requires m.Valid()
    ensures m.names != [] <==> m.abis != map[]
  {
    if m.abis != map[] {
      var k :| k in m.abis;
      assert k in m.names;
    }
    if m.names != [] {
      assert m.names[0] in m.abis;
    }
  }

  /** The empty object literal `{}`. */
  const Empty := ContractMap([], map[])

  /** Every (file, contract) pair of a compilation result, in the order the reduction visits them. */
  function Entries(files: seq<SourceFile>): (es: seq<NamedContract>)
  {
    if files == [] then [] else Entries(files[..|files| - 1]) + files[|files| - 1].contracts
  }

  /** The accumulator after the reduction has visited the entries `es`, one assignment each. */
  function Fold(es: seq<NamedContract>): (m: ContractMap)
  {
    if es == [] then Empty
    else
      var e := es[|es| - 1];
      Fold(es[..|es| - 1]).Set(e.name, Contract(e.compiled.abi))
  }

  /** The accumulator stays a well-formed object. */
  lemma {:induction false} FoldValid(es: seq<NamedContract>)
    ensures Fold(es).Valid()
  {
    if es != [] { FoldValid(es[..|es| - 1]); }
  }

  /** The value `createContracts(result)` returns. */
  function Flattened(result: CompilationResult): (m: ContractMap)
    ensures m.Valid()
    ensures m.abis.Keys == NamesOf(Entries(result.contracts))
  {
    FoldValid(Entries(result.contracts));
    FoldKeys(Entries(result.contracts));
    Fold(Entries(result.contracts))
  }

  /** The set of contract names defined anywhere in `es`. */
  function NamesOf(es: seq<NamedContract>): set<string>
  {
    set i | 0 <= i < |es| :: es[i].name
  }

  /** `i` is the last position of `es` that defines `name`. */
  predicate IsLastDefinition(es: seq<NamedContract>, name: string, i: int)
  {
    && 0 <= i < |es|
    && es[i].name == name
    && forall j :: i < j < |es| ==> es[j].name != name
  }

  /**
   * `createContracts`: the reduction over the files; the accumulator is threaded from one
   * file to the next.
   */
  method CreateContracts(result: CompilationResult) returns (acc: ContractMap)
    ensures acc == Flattened(result)
    ensures acc.Valid()
  {
    var files := result.contracts;
    acc := Empty;
    var i := 0;
    assert files[..0] == [];
    while i < |files|
      invariant 0 <= i <= |files|
      invariant acc == Fold(Entries(files[..i]))
    {
      acc := AssignEach(Entries(files[..i]), acc, files[i].contracts);
      assert files[..i + 1] == files[..i] + [files[i]];
      EntriesOfAppend(files[..i], files[i]);
      i := i + 1;
    }
    assert files[..i] == files;
    FoldValid(Entries(files));
  }

  /**
   * The reduction callback for one file: `forEach` contract, `acc[name] = { abi }`.
   * `visited` is what the reduction has gone through before this file.
   */
  method AssignEach(ghost visited: seq<NamedContract>, acc0: ContractMap, contracts: seq<NamedContract>)
    returns (acc: ContractMap)
    requires acc0 == Fold(visited)
    ensures acc == Fold(visited + contracts)
  {
    acc := acc0;
    var j := 0;
    assert visited + contracts[..0] == visited;
    while j < |contracts|
      invariant 0 <= j <= |contracts|
      invariant acc == Fold(visited + contracts[..j])
    {
      acc := acc.Set(contracts[j].name, Contract(contracts[j].compiled.abi));
      assert visited + contracts[..j + 1] == (visited + contracts[..j]) + [contracts[j]];
      FoldSnoc(visited + contracts[..j], contracts[j]);
      j := j + 1;
    }
    assert contracts[..j] == contracts;
  }

  /** One more visited entry is one more assignment. */
  lemma FoldSnoc(es: seq<NamedContract>, e: NamedContract)
    ensures Fold(es + [e]) == Fold(es).Set(e.name, Contract(e.compiled.abi))
  {
  }

  /** The key set of the flat map is exactly the set of names defined in the entries. */
  lemma {:induction false} FoldKeys(es: seq<NamedContract>)
    ensures Fold(es).abis.Keys == NamesOf(es)
  {
    if es != [] {
      var init := es[..|es| - 1];
      FoldKeys(init);
      assert es == init + [es[|es| - 1]];
      assert NamesOf(es) == NamesOf(init) + {es[|es| - 1].name} by {
        forall n | n in NamesOf(es) ensures n in NamesOf(init) + {es[|es| - 1].name} {
          var i :| 0 <= i < |es| && es[i].name == n;
          if i < |es| - 1 { assert init[i] == es[i]; }
        }
        forall n | n in NamesOf(init) ensures n in NamesOf(es) {
          var i :| 0 <= i < |init| && init[i].name == n;
          assert es[i] == init[i];
        }
      }
    }
  }

  /**
   * Last write wins: every name of the flat map holds the ABI of the last entry that
   * defines it.
   */
  lemma {:induction false} FoldLastWins(es: seq<NamedContract>, name: string)
    requires name in Fold(es).abis
    ensures exists i :: IsLastDefinition(es, name, i) && Fold(es).abis[name] == Contract(es[i].compiled.abi)
  {
    var last := |es| - 1;
    var init := es[..last];
    if es[last].name == name {
      assert IsLastDefinition(es, name, last);
    } else {
      FoldLastWins(init, name);
      var i :| IsLastDefinition(init, name, i) && Fold(init).abis[name] == Contract(init[i].compiled.abi);
      assert es[i] == init[i];
      assert IsLastDefinition(es, name, i);
    }
  }

  /** The file-level view of `Entries`: each file's contracts, in file order. */
  lemma {:induction false} EntriesOfAppend(files: seq<SourceFile>, f: SourceFile)
    ensures Entries(files + [f]) == Entries(files) + f.contracts
  {
  }

  /**
   * A single file whose N contracts have distinct names yields exactly N entries, each
   * holding its own ABI, listed in the file's order.
   */
  lemma SingleFileDistinct(result: CompilationResult)
    requires |result.contracts| == 1
    requires var cs := result.contracts[0].contracts;
      forall i, j :: 0 <= i < j < |cs| ==> cs[i].name != cs[j].name
    ensures var cs := result.contracts[0].contracts;
      && |Flattened(result).abis| == |cs|
      && Flattened(result).names == seq(|cs|, i requires 0 <= i < |cs| => cs[i].name)
      && forall i :: 0 <= i < |cs| ==>
           cs[i].name in Flattened(result).abis && Flattened(result).abis[cs[i].name] == Contract(cs[i].compiled.abi)
  {
    var cs := result.contracts[0].contracts;
    assert result.contracts[..0] == [];
    assert Entries(result.contracts) == cs;
    DistinctFold(cs);
  }

  /** With distinct names, the flat map lists every name in order and keeps every ABI. */
  lemma {:induction false} DistinctFold(es: seq<NamedContract>)
    requires forall i, j :: 0 <= i < j < |es| ==> es[i].name != es[j].name
    ensures Fold(es).names == seq(|es|, i requires 0 <= i < |es| => es[i].name)
    ensures |Fold(es).abis| == |es|
    ensures forall i :: 0 <= i < |es| ==> es[i].name in Fold(es).abis && Fold(es).abis[es[i].name] == Contract(es[i].compiled.abi)
  {
    if es != [] {
      var last := |es| - 1;
      var init := es[..last];
      var e := es[last];
      assert es == init + [e];
      FoldSnoc(init, e);
      DistinctFold(init);
      FoldKeys(init);
      assert e.name !in NamesOf(init);
      var m := Fold(es);
      assert m.names == Fold(init).names + [e.name];
      forall i | 0 <= i < |es|
        ensures es[i].name in m.abis && m.abis[es[i].name] == Contract(es[i].compiled.abi)
      {
        if i < last { assert es[i] == init[i]; }
      }
    }
  }

  /**
   * Two files that both define `name`, the second exactly once at position `k`: whatever
   * else either file holds, the map keeps `name` with the second file's ABI (last write
   * wins, not first).
   */
  lemma CollisionSecondFileWins(f0: SourceFile, f1: SourceFile, name: string, k: int)
    requires 0 <= k < |f1.contracts| && f1.contracts[k].name == name
    requires forall j :: 0 <= j < |f1.contracts| && j != k ==> f1.contracts[j].name != name
    ensures var m := Flattened(CompilationResult([f0, f1]));
      name in m.abis && m.abis[name] == Contract(f1.contracts[k].compiled.abi)
  {
    var n0 := |f0.contracts|;
    var es := f0.contracts + f1.contracts;
    EntriesOfTwoFiles(f0, f1);
    var p := n0 + k;
    assert es[p] == f1.contracts[k];
    FoldKeys(es);
    assert name in NamesOf(es);
    FoldLastWins(es, name);
    var i :| IsLastDefinition(es, name, i) && Fold(es).abis[name] == Contract(es[i].compiled.abi);
    // the last definition is the one at `p`: none after it, and none in the second file but `k`
    assert p <= i;
    assert es[i] == f1.contracts[i - n0];
    assert i == p;
  }

  /** With two files, the reduction visits the first file's contracts, then the second's. */
  lemma EntriesOfTwoFiles(f0: SourceFile, f1: SourceFile)
    ensures Entries([f0, f1]) == f0.contracts + f1.contracts
  {
    EntriesOfAppend([], f0);
    assert [] + [f0] == [f0];
    EntriesOfAppend([f0], f1);
    assert [f0] + [f1] == [f0, f1];
  }

  /** Assigning the same name twice leaves one key, in its first place, with the second value. */
  lemma FoldOverwrite(e1: NamedContract, e2: NamedContract)
    requires e1.name == e2.name
    ensures Fold([e1, e2]).names == [e1.name]
    ensures Fold([e1, e2]).abis == map[e1.name := Contract(e2.compiled.abi)]
  {
    FoldSnoc([], e1);
    assert [] + [e1] == [e1];
    var m1 := Fold([e1]);
    assert m1 == Empty.Set(e1.name, Contract(e1.compiled.abi));
    assert m1.names == [e1.name] && e1.name in m1.abis;
    FoldSnoc([e1], e2);
    assert [e1] + [e2] == [e1, e2];
    assert Fold([e1, e2]) == m1.Set(e2.name, Contract(e2.compiled.abi));
  }

  /** The first key of the flat map is the first contract the reduction visits. */
  lemma {:induction false} FoldFirstName(es: seq<NamedContract>)
    requires es != []
    ensures Fold(es).names != [] && Fold(es).names[0] == es[0].name
  {
    var init := es[..|es| - 1];
    if init == [] {
      assert Fold(init) == Empty;
    } else {
      FoldFirstName(init);
      assert init[0] == es[0];
    }
  }
}
