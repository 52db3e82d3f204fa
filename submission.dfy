/**
 * The pure part of `generateInterface`: the ordered validation of the form, the combined
 * ABI of the selected contracts and the dapp document written for a valid submission.
 * The form fields and the checked boxes are read from the page by the caller and
 * passed in as values.
 */
module Submission {
  import opened Wrappers
  import opened ContractMaps
  import opened Address

  // ---------------------------------------------------------------------------
  // String.prototype.trim
  // ---------------------------------------------------------------------------

  /** The characters JavaScript's `trim` removes: WhiteSpace and LineTerminator. */
  const JsWhitespace: set<char> :=
    {'\t', '\n', '\U{000B}', '\U{000C}', '\r', ' ', '\U{00A0}', '\U{1680}',
     '\U{2000}', '\U{2001}', '\U{2002}', '\U{2003}', '\U{2004}', '\U{2005}',
     '\U{2006}', '\U{2007}', '\U{2008}', '\U{2009}', '\U{200A}',
     '\U{2028}', '\U{2029}', '\U{202F}', '\U{205F}', '\U{3000}', '\U{FEFF}'}

  predicate IsJsWhitespace(c: char) {
    c in JsWhitespace
  }

  predicate AllWhitespace(s: string) {
    forall i :: 0 <= i < |s| ==> IsJsWhitespace(s[i])
  }

  /**
   * Drops leading whitespace: the result is a suffix of `s`, everything dropped is
   * whitespace, and the result does not start with whitespace.
   */
  function TrimStart(s: string): (r: string)
    ensures |r| <= |s| && r == s[|s| - |r|..]
    ensures forall i :: 0 <= i < |s| - |r| ==> IsJsWhitespace(s[i])
    ensures r != [] ==> !IsJsWhitespace(r[0])
  {
    if s != [] && IsJsWhitespace(s[0]) then
      var r := TrimStart(s[1..]);
      assert s[1..][|s| - 1 - |r|..] == s[|s| - |r|..];
      assert forall i :: 1 <= i < |s| - |r| ==> s[i] == s[1..][i - 1];
      r
    else s
  }

  /**
   * Drops trailing whitespace: the result is a prefix of `s`, everything dropped is
   * whitespace, and the result does not end with whitespace.
   */
  function TrimEnd(s: string): (r: string)
    ensures |r| <= |s| && r == s[..|r|]
    ensures forall i :: |r| <= i < |s| ==> IsJsWhitespace(s[i])
    ensures r != [] ==> !IsJsWhitespace(r[|r| - 1])
  {
    if s != [] && IsJsWhitespace(s[|s| - 1]) then
      var r := TrimEnd(s[..|s| - 1]);
      assert s[..|s| - 1][..|r|] == s[..|r|];
      assert forall i :: |r| <= i < |s| - 1 ==> s[i] == s[..|s| - 1][i];
      r
    else s
  }

  /** `r` is `s[i..i + |r|]`, and everything of `s` around it is whitespace. */
  predicate IsPaddedSlice(s: string, r: string, i: int) {
    && 0 <= i <= |s| - |r|
    && r == s[i..i + |r|]
    && (forall k :: 0 <= k < i ==> IsJsWhitespace(s[k]))
    && (forall k :: i + |r| <= k < |s| ==> IsJsWhitespace(s[k]))
  }

  /**
   * `String.prototype.trim`: the result is a slice of `s` with only whitespace around
   * it, and it neither starts nor ends with whitespace.
   */
  function Trim(s: string): (r: string)
    ensures exists i :: IsPaddedSlice(s, r, i)
    ensures r != [] ==> !IsJsWhitespace(r[0]) && !IsJsWhitespace(r[|r| - 1])
  {
    var t := TrimStart(s);
    var r := TrimEnd(t);
    PaddedSliceOfTrimmed(s, t, r);
    r
  }

  /**
   * Cutting leading whitespace (giving `t`) and then trailing whitespace (giving `r`)
   * leaves a slice of `s` with only whitespace around it.
   */
  lemma PaddedSliceOfTrimmed(s: string, t: string, r: string)
    requires |t| <= |s| && t == s[|s| - |t|..]
    requires forall i :: 0 <= i < |s| - |t| ==> IsJsWhitespace(s[i])
    requires |r| <= |t| && r == t[..|r|]
    requires forall i :: |r| <= i < |t| ==> IsJsWhitespace(t[i])
    ensures IsPaddedSlice(s, r, |s| - |t|)
  {
    var i := |s| - |t|;
    assert r == s[i..i + |r|];
    forall k | i + |r| <= k < |s|
      ensures IsJsWhitespace(s[k])
    {
      assert s[k] == t[k - i];
    }
  }

  /** `name.trim() === ""` holds exactly when every character of the name is whitespace. */
  lemma TrimEmptyIff(s: string)
    ensures Trim(s) == "" <==> AllWhitespace(s)
  {
    var r := Trim(s);
    var i :| IsPaddedSlice(s, r, i);
    if r == [] {
      forall k | 0 <= k < |s| ensures IsJsWhitespace(s[k]) {
        if k < i { } else { }
      }
    } else {
      assert s[i] == r[0];
    }
  }

  // ---------------------------------------------------------------------------
  // The combined ABI
  // ---------------------------------------------------------------------------

  /** Every selected name is a key of the contract map. */
  predicate AllKnown(abis: map<string, Contract>, selected: seq<string>) {
    forall i :: 0 <= i < |selected| ==> selected[i] in abis
  }

  /** The number of ABI entries of the selected contracts, counted one contract at a time. */
  function TotalAbiLength(abis: map<string, Contract>, selected: seq<string>): nat
    requires AllKnown(abis, selected)
  {
    if selected == [] then 0 else |abis[selected[0]].abi| + TotalAbiLength(abis, selected[1..])
  }

  /**
   * `selected.reduce((acc, name) => acc.concat(contracts[name].abi), [])`. Looking up a
   * name that is not a key yields `undefined`, and reading `.abi` from it throws: `None`.
   */
  function CombineAbis(abis: map<string, Contract>, selected: seq<string>): (r: Option<seq<AbiEntry>>)
    ensures r.Some? <==> AllKnown(abis, selected)
  {
    if selected == [] then Some([])
    else
      var init := selected[..|selected| - 1];
      var name := selected[|selected| - 1];
      match CombineAbis(abis, init)
      case None => None
      case Some(acc) => if name in abis then Some(acc + abis[name].abi) else None
  }

  /** Appending one name to the selection adds that contract's ABI length to the total. */
  lemma {:induction false} TotalAbiLengthSnoc(abis: map<string, Contract>, selected: seq<string>, name: string)
    requires AllKnown(abis, selected) && name in abis
    ensures AllKnown(abis, selected + [name])
    ensures TotalAbiLength(abis, selected + [name]) == TotalAbiLength(abis, selected) + |abis[name].abi|
  {
    if selected != [] {
      assert (selected + [name])[1..] == selected[1..] + [name];
      TotalAbiLengthSnoc(abis, selected[1..], name);
    }
  }

  /**
   * The combined ABI is as long as the selected ABIs together, and it is empty exactly
   * when every selected contract has an empty ABI (whether or not any is selected).
   */
  lemma {:induction false} CombinedAbiLength(abis: map<string, Contract>, selected: seq<string>)
    requires AllKnown(abis, selected)
    ensures |CombineAbis(abis, selected).value| == TotalAbiLength(abis, selected)
    ensures CombineAbis(abis, selected).value == [] <==>
      forall i :: 0 <= i < |selected| ==> abis[selected[i]].abi == []
  {
    if selected != [] {
      var init := selected[..|selected| - 1];
      var name := selected[|selected| - 1];
      CombinedAbiLength(abis, init);
      TotalAbiLengthSnoc(abis, init, name);
      assert init + [name] == selected;
      var r := CombineAbis(abis, selected).value;
      assert r == CombineAbis(abis, init).value + abis[name].abi;
      if r == [] {
        forall i | 0 <= i < |selected| ensures abis[selected[i]].abi == [] {
          if i < |init| { assert selected[i] == init[i]; }
        }
      }
      if forall i :: 0 <= i < |selected| ==> abis[selected[i]].abi == [] {
        forall i | 0 <= i < |init| ensures abis[init[i]].abi == [] {
          assert init[i] == selected[i];
        }
      }
    }
  }

  // ---------------------------------------------------------------------------
  // Validation
  // ---------------------------------------------------------------------------

  /** The thrown errors of `generateInterface`, in the order they are checked. */
  datatype ValidationError =
    | NameRequired
    | InvalidAddress
    | MissingContract  // the TypeError of reading `.abi` from `undefined`
    | NoAbiSelected
    | NameHasSlash

  /** The `name` of each thrown error object. */
  function ErrorName(e: ValidationError): (r: string)
    ensures r == "Error" || r == "TypeError"
    ensures r == "TypeError" <==> e == MissingContract
  {
    if e == MissingContract then "TypeError" else "Error"
  }

  /** The `message` of each thrown error object (the TypeError's is the V8 engine's wording). */
  function ErrorMessage(e: ValidationError): (r: string)
    ensures |r| > 0
  {
    match e
    case NameRequired => "Please enter a name for your dapp"
    case InvalidAddress => "Please enter a valid contract address"
    case MissingContract => "Cannot read properties of undefined (reading 'abi')"
    case NoAbiSelected => "Please select at least one contract"
    case NameHasSlash => "Dapp name cannot contain \"/\". Please choose another name."
  }

  /** Each check has its own message, so the alert tells the user which check failed. */
  lemma ErrorMessagesDistinct(e1: ValidationError, e2: ValidationError)
    ensures e1 != e2 ==> ErrorMessage(e1) != ErrorMessage(e2)
  {
  }

  /**
   * The string form `${err}` shown in the warning alert: `Error.prototype.toString`,
   * the name, a colon and a space, then the message. It is never empty, so the alert
   * presenter always takes its warning branch for it.
   */
  function AlertText(e: ValidationError): (text: string)
    ensures |text| > |ErrorMessage(e)|
  {
    ErrorName(e) + ": " + ErrorMessage(e)
  }

  /** The alert shows the error's own message at its end, after the name and separator. */
  lemma AlertTextEndsWithMessage(e: ValidationError)
    ensures var text, message := AlertText(e), ErrorMessage(e);
      |text| == |ErrorName(e)| + 2 + |message| && text[|text| - |message|..] == message
  {
  }

  /**
   * The checks of `generateInterface` up to the first side effect. They run in order and
   * the first that fails decides the error; on success the combined ABI is returned.
   */
  function Validate(name: string, address: string, selected: seq<string>, abis: map<string, Contract>)
    : (r: Result<seq<AbiEntry>, ValidationError>)
    ensures r == Failure(NameRequired) <==> AllWhitespace(name)
    ensures r == Failure(InvalidAddress) <==> !AllWhitespace(name) && !MatchesPattern(address)
    ensures r == Failure(MissingContract) <==>
      !AllWhitespace(name) && MatchesPattern(address) && !AllKnown(abis, selected)
    ensures r == Failure(NoAbiSelected) <==>
      && !AllWhitespace(name) && MatchesPattern(address) && AllKnown(abis, selected)
      && TotalAbiLength(abis, selected) == 0
    ensures r == Failure(NameHasSlash) <==>
      && !AllWhitespace(name) && MatchesPattern(address) && AllKnown(abis, selected)
      && TotalAbiLength(abis, selected) > 0 && '/' in name
    ensures r.Success? ==> AllKnown(abis, selected) && |r.value| == TotalAbiLength(abis, selected) > 0
    ensures r.Success? ==> Some(r.value) == CombineAbis(abis, selected)
  {
    TrimEmptyIff(name);
    MatchesPatternIff(address);
    if Trim(name) == "" then Failure(NameRequired)
    else if !IsAddress(address) then Failure(InvalidAddress)
    else match CombineAbis(abis, selected)
      case None => Failure(MissingContract)
      case Some(combined) =>
        CombinedAbiLength(abis, selected);
        if |combined| == 0 then Failure(NoAbiSelected)
        else if '/' in name then Failure(NameHasSlash)
        else Success(combined)
  }

  /**
   * A selection whose contracts all have empty ABIs is rejected as if nothing were
   * selected, even when it is not empty.
   */
  lemma EmptyAbisRejected(name: string, address: string, selected: seq<string>, abis: map<string, Contract>)
    requires !AllWhitespace(name) && MatchesPattern(address) && AllKnown(abis, selected)
    requires forall i :: 0 <= i < |selected| ==> abis[selected[i]].abi == []
    ensures Validate(name, address, selected, abis) == Failure(NoAbiSelected)
  {
    CombinedAbiLength(abis, selected);
  }

  // ---------------------------------------------------------------------------
  // The dapp document
  // ---------------------------------------------------------------------------

  /** One entry of the document's `contracts` list. */
  datatype DappContract = DappContract(address: string, abi: seq<AbiEntry>, name: string)

  /**
   * The initial layout. Its only varying part is the id of its one section; the colours,
   * font and empty block list are fixed literals and are not spelled out here.
   */
  datatype FrontendStructure = FrontendStructure(sectionId: string)

  datatype DappConfig = DappConfig(windowClick: bool)

  datatype DappDocument = DappDocument(
    id: string,
    dappName: string,
    walletConnected: bool,
    dappSaved: bool,
    frontendStructure: FrontendStructure,
    contracts: seq<DappContract>,
    images: seq<string>,
    config: DappConfig)

  /**
   * The document built after validation: one entry per selected name, in selection order,
   * each with the raw address, that contract's ABI and its name; the name is stored as
   * typed (not trimmed).
   */
  function BuildDocument(dappId: string, sectionId: string, name: string, address: string,
                         selected: seq<string>, abis: map<string, Contract>): (d: DappDocument)
    requires AllKnown(abis, selected)
    ensures d.id == dappId && d.dappName == name
    ensures !d.walletConnected && !d.dappSaved && d.images == [] && !d.config.windowClick
    ensures d.frontendStructure.sectionId == sectionId
    ensures |d.contracts| == |selected|
    ensures forall i :: 0 <= i < |selected| ==>
      d.contracts[i] == DappContract(address, abis[selected[i]].abi, selected[i])
  {
    DappDocument(
      dappId, name, false, false, FrontendStructure(sectionId),
      seq(|selected|, i requires 0 <= i < |selected| => DappContract(address, abis[selected[i]].abi, selected[i])),
      [], DappConfig(false))
  }

  /** The ABIs of a list of document entries, concatenated in order. */
  function EntryAbis(cs: seq<DappContract>): seq<AbiEntry>
  {
    if cs == [] then [] else EntryAbis(cs[..|cs| - 1]) + cs[|cs| - 1].abi
  }

  /** The document's entries carry exactly the combined ABI that passed validation. */
  lemma {:induction false} DocumentCarriesCombinedAbi(dappId: string, sectionId: string, name: string,
                                                      address: string, selected: seq<string>,
                                                      abis: map<string, Contract>)
    requires AllKnown(abis, selected)
    ensures EntryAbis(BuildDocument(dappId, sectionId, name, address, selected, abis).contracts)
         == CombineAbis(abis, selected).value
  {
    if selected != [] {
      var init := selected[..|selected| - 1];
      DocumentCarriesCombinedAbi(dappId, sectionId, name, address, init, abis);
      var cs := BuildDocument(dappId, sectionId, name, address, selected, abis).contracts;
      var cs0 := BuildDocument(dappId, sectionId, name, address, init, abis).contracts;
      assert cs[..|cs| - 1] == cs0;
    }
  }
}
