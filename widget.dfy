/**
 * The `dapposDapp` widget: its contract map, its alert state and what it sends out.
 *
 * Host status notifications, the document-store write and the opening of the builder
 * page are recorded, in order, in `effects`; the page itself, the host transport, the
 * store and the browser are not modelled. Timer callbacks are methods the caller invokes.
 */
module Widget {
  import opened Wrappers
  import opened ContractMaps
  import opened Submission
  import opened Identity

  datatype AlertKind = SuccessAlert | WarningAlert

  /** `contractAlerts`: the empty object `{}`, or `{ message, type }`. */
  datatype AlertState = NoAlert | Alert(message: string, kind: AlertKind)

  /** `Object.keys(contractAlerts).length`: none for `{}`, `message` and `type` otherwise. */
  function AlertKeyCount(a: AlertState): nat {
    if a.NoAlert? then 0 else 2
  }

  /** A `statusChanged` payload; the reset status carries only its key. */
  datatype Status = Status(key: string, kind: Option<string>, title: Option<string>)

  const SucceedStatus := Status("succeed", Some("success"), Some("New interface generated"))
  const LoadingStatus := Status("loading", Some("info"), Some("Generating ..."))
  const NoneStatus := Status("none", None, None)

  datatype Effect =
    | Emit(status: Status)
      /** `set(dapp)` on the document `remixUsers/<userId>/dapps/<dappId>`. */
    | WriteDapp(userId: string, dappId: string, doc: DappDocument)
      /** `window.open` on the builder page with both identifiers as query parameters. */
    | OpenBuilder(userId: string, dappId: string)

  class DapposDapp {
    var contracts: ContractMap
    var alert: AlertState
    var effects: seq<Effect>
    /** The fixed pool of encouragement strings. */
    const encouragement: seq<string>
    /** The browser's local storage, reduced to its `uniqueId` slot. */
    const storage: IdentitySlot

    ghost predicate Valid()
      reads this`contracts
    {
      contracts.Valid() && |encouragement| > 0
    }

    constructor (pool: seq<string>, storage: IdentitySlot)
      requires |pool| > 0
      ensures Valid()
      ensures contracts == Empty && alert == NoAlert && effects == []
      ensures encouragement == pool && this.storage == storage
    {
      contracts := Empty;
      alert := NoAlert;
      effects := [];
      encouragement := pool;
      this.storage := storage;
    }

    /**
     * The `compilationFinished` callback. A missing result changes nothing and emits
     * nothing; otherwise the contract map is replaced, not merged, and success is emitted.
     */
    method OnCompilationFinished(result: Option<CompilationResult>)
      requires Valid()
      modifies this`contracts, this`effects
      ensures Valid()
      ensures result.None? ==> contracts == old(contracts) && effects == old(effects)
      ensures result.Some? ==> contracts == Flattened(result.value)
      ensures result.Some? ==> effects == old(effects) + [Emit(SucceedStatus)]
      ensures result.Some? ==> contracts.abis.Keys == NamesOf(Entries(result.value.contracts))
    {
      if result.None? {
        return;
      }
      contracts := CreateContracts(result.value);
      effects := effects + [Emit(SucceedStatus)];
    }

    /**
     * `showAlert(err)`: with no (or a falsy) argument, the encouragement at the drawn
     * index as a success; otherwise the argument's text as a warning. Either way the alert
     * block becomes visible. `pick` is `Math.floor(Math.random() * encouragement.length)`.
     */
    method ShowAlert(err: Option<string>, pick: nat)
      requires Valid()
      requires IsFalsy(err) ==> pick < |encouragement|
      modifies this`alert
      ensures Valid()
      ensures IsFalsy(err) ==> alert == Alert(encouragement[pick], SuccessAlert)
      ensures !IsFalsy(err) ==> alert == Alert(err.value, WarningAlert)
      ensures !AlertHidden()
    {
      if IsFalsy(err) {
        alert := Alert(encouragement[pick], SuccessAlert);
      } else {
        alert := Alert(err.value, WarningAlert);
      }
    }

    /** The body of the five-second timer `showAlert` schedules. */
    method ClearAlert()
      requires Valid()
      modifies this`alert
      ensures Valid()
      ensures alert == NoAlert && AlertHidden()
    {
      alert := NoAlert;
    }

    /** The body of the ten-second timer a successful submission schedules. */
    method ResetStatus()
      requires Valid()
      modifies this`effects
      ensures Valid()
      ensures effects == old(effects) + [Emit(NoneStatus)]
    {
      effects := effects + [Emit(NoneStatus)];
    }

    /**
     * `generateInterface` with the form's name and address, the checked names in page
     * order, and the three `uuidv4()` values it may draw (user, dapp, layout section).
     * A failed check shows its warning and does nothing else; a passing submission emits
     * "loading", gets or creates the user identifier, writes the document and opens the
     * builder, in that order, whether or not the write succeeds.
     */
    method GenerateInterface(name: string, address: string, selected: seq<string>,
                             newUserId: string, dappId: string, sectionId: string)
      requires Valid()
      modifies this`alert, this`effects, storage
      ensures Valid() && unchanged(this`contracts)
      ensures var v := Validate(name, address, selected, old(contracts.abis));
        v.Failure? ==>
          && alert == Alert(AlertText(v.error), WarningAlert)
          && effects == old(effects)
          && storage.stored == old(storage.stored)
      ensures var v := Validate(name, address, selected, old(contracts.abis));
        v.Success? ==>
          var (userId, slot) := GetOrCreateResult(old(storage.stored), newUserId);
          && alert == old(alert)
          && storage.stored == slot
          && effects == old(effects) + [
               Emit(LoadingStatus),
               WriteDapp(userId, dappId, BuildDocument(dappId, sectionId, name, address, selected, contracts.abis)),
               OpenBuilder(userId, dappId)]
    {
      var v := Validate(name, address, selected, contracts.abis);
      if v.Failure? {
        Reject(v.error);
      } else {
        Submit(name, address, selected, newUserId, dappId, sectionId);
      }
    }

    /** The `catch` of `generateInterface`: the error's string form as a warning alert. */
    method Reject(e: ValidationError)
      requires Valid()
      modifies this`alert
      ensures Valid() && unchanged(this`contracts, this`effects, storage)
      ensures alert == Alert(AlertText(e), WarningAlert) && !AlertHidden()
    {
      var text := AlertText(e);
      assert !IsFalsy(Some(text));
      ShowAlert(Some(text), 0);
    }

    /**
     * The part of `generateInterface` after the checks: "loading", get-or-create of the
     * user identifier, the write of the document, then the builder page, whether or not
     * the write succeeds.
     */
    method Submit(name: string, address: string, selected: seq<string>,
                  newUserId: string, dappId: string, sectionId: string)
      requires Valid()
      requires AllKnown(contracts.abis, selected)
      modifies this`effects, storage
      ensures Valid() && unchanged(this`contracts, this`alert)
      ensures var (userId, slot) := GetOrCreateResult(old(storage.stored), newUserId);
        && storage.stored == slot
        && effects == old(effects) + [
             Emit(LoadingStatus),
             WriteDapp(userId, dappId, BuildDocument(dappId, sectionId, name, address, selected, contracts.abis)),
             OpenBuilder(userId, dappId)]
    {
      effects := effects + [Emit(LoadingStatus)];
      var userId := storage.GetOrCreate(newUserId);
      var doc := BuildDocument(dappId, sectionId, name, address, selected, contracts.abis);
      effects := effects + [WriteDapp(userId, dappId, doc), OpenBuilder(userId, dappId)];
    }

    /** `isContracts`: the checkbox list, the inputs and the button are enabled. */
    function HasContracts(): (r: bool)
      reads this
      requires Valid()
      ensures r <==> contracts.abis != map[]
    {
      NamesNonEmptyIff(contracts);
      |contracts.names| > 0
    }

    /** The default value of the name input: the first key of the map, or "". */
    function DefaultDappName(): (r: string)
      reads this
      requires Valid()
      ensures r != "" ==> r in contracts.abis && r == contracts.names[0]
      ensures HasContracts() ==> r == contracts.names[0]
      ensures !HasContracts() ==> r == ""
    {
      if contracts.names == [] then "" else contracts.names[0]
    }

    /** The alert block's `hidden` attribute: `contractAlerts` has no keys. */
    predicate AlertHidden()
      reads this
      ensures AlertHidden() <==> alert == NoAlert
    {
      AlertKeyCount(alert) == 0
    }
  }

  /**
   * After a compilation whose files define at least one contract, the name input
   * defaults to the first contract of the first file that has any.
   */
  lemma DefaultNameAfterCompilation(result: CompilationResult)
    requires Entries(result.contracts) != []
    ensures Flattened(result).names != []
    ensures Flattened(result).names[0] == Entries(result.contracts)[0].name
  {
    FoldFirstName(Entries(result.contracts));
  }
}
