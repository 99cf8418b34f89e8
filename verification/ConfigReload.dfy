// What a reload of the configuration has to do: whether the service survives the change,
// whether its wallets have to stop, and whether the library has to be configured again.
module ConfigReload {
  import opened Common
  import opened SortedLists

  /** A configuration value that is only ever compared, `undefined` included. */
  type Value(==, !new)

  datatype Multisig = Multisig(total: Value, numSignatures: Value, pubkeys: seq<string>)

  /** The fields that may not change at all. */
  datatype Fixed = Fixed(
    httpPort: Value, httpBindAddress: Value, httpApiKey: Value, consoleLevel: Value, httpLogFormat: Value,
    hsmHost: Value, hsmUsername: Value, hsmPassword: Value,
    fireblocksUrl: Value, fireblocksApiKey: Value, fireblocksApiSecret: Value, fireblocksApiSecretFile: Value)

  /** The fields that an analysis only reads. */
  datatype Fields = Fields(
    fixed: Fixed,
    server: Value, network: Value,
    tokenUid: Value, gapLimit: Value, connectionTimeout: Value,
    txMiningUrl: Value, atomicSwapService: Value, txMiningApiKey: Value,
    seeds: Option<map<string, string>>)

  datatype Data = Data(fields: Fields, enabledPlugins: Option<seq<string>>, multisig: Option<map<string, Multisig>>)

  datatype Action = Action(stopAllWallets: bool, reconfigLib: bool, nonRecoverable: bool)

  /** The analysis returns an action, or throws: on missing new seeds, or what the seed check throws. */
  datatype Analysis = Done(action: Action) | TypeError | SeedCheckError

  /** What the library's seed check does with a seed; both of the first two bad outcomes mean invalid words. */
  datatype WordsCheck = Valid | Invalid | InvalidWordsThrown | OtherThrown {
    predicate Bad() { Invalid? || InvalidWordsThrown? }
  }

  // ----- what counts as a change -----

  /** Two optional lists compare equal when both are missing or both sort and join to the same string. */
  predicate SamePlugins(a: Option<seq<string>>, b: Option<seq<string>>) {
    match (a, b)
    case (None, None) => true
    case (Some(p), Some(q)) => SameJoined(p, q, '#')
    case _ => false
  }

  predicate HasMultisig(d: Data, key: string) {
    d.multisig.Some? && key in d.multisig.value
  }

  /** A multisig wallet of the old configuration is not there any more as it was. */
  predicate MultisigChanged(o: Data, n: Data, key: string) {
    && HasMultisig(o, key)
    && (!HasMultisig(n, key)
        || n.multisig.value[key].total != o.multisig.value[key].total
        || n.multisig.value[key].numSignatures != o.multisig.value[key].numSignatures
        || !SameJoined(n.multisig.value[key].pubkeys, o.multisig.value[key].pubkeys, ';'))
  }

  predicate SeedChanged(o: Fields, n: Fields, key: string)
    requires o.seeds.Some? && n.seeds.Some? && key in o.seeds.value
  {
    key !in n.seeds.value || n.seeds.value[key] != o.seeds.value[key]
  }

  ghost predicate WalletsAffected(o: Data, n: Data) {
    && o.fields.seeds.Some? && n.fields.seeds.Some?
    && exists key :: && key in o.fields.seeds.value
                     && (SeedChanged(o.fields, n.fields, key) || MultisigChanged(o, n, key))
  }

  predicate ServerChanged(o: Fields, n: Fields) {
    o.server != n.server || o.network != n.network
  }

  ghost predicate StopNeeded(o: Data, n: Data) {
    || WalletsAffected(o, n)
    || ServerChanged(o.fields, n.fields)
    || o.fields.tokenUid != n.fields.tokenUid
    || o.fields.gapLimit != n.fields.gapLimit
    || o.fields.connectionTimeout != n.fields.connectionTimeout
  }

  predicate ReconfigNeeded(o: Fields, n: Fields) {
    || ServerChanged(o, n)
    || o.txMiningUrl != n.txMiningUrl
    || o.atomicSwapService != n.atomicSwapService
    || o.txMiningApiKey != n.txMiningApiKey
  }

  predicate SurvivesChange(o: Data, n: Data) {
    o.fields.fixed == n.fields.fixed && SamePlugins(o.enabledPlugins, n.enabledPlugins)
  }

  /** Old seeds are looked up in new seeds that are not there. */
  predicate SeedsMissing(o: Fields, n: Fields) {
    o.seeds.Some? && o.seeds.value != map[] && n.seeds.None?
  }

  ghost predicate SomeSeed(n: Fields, check: string -> WordsCheck, bad: bool) {
    && n.seeds.Some?
    && exists key :: && key in n.seeds.value
                     && if bad then check(n.seeds.value[key]).Bad() else check(n.seeds.value[key]).OtherThrown?
  }

  /** What an analysis has to answer. */
  ghost predicate Analysed(o: Data, n: Data, check: string -> WordsCheck, r: Analysis) {
    if !SurvivesChange(o, n) then r == Done(Action(false, false, true))
    else if SeedsMissing(o.fields, n.fields) then r == TypeError
    else
      && (r.Done? && !r.action.nonRecoverable ==>
            && !SomeSeed(n.fields, check, true) && !SomeSeed(n.fields, check, false)
            && r.action == Action(StopNeeded(o, n), ReconfigNeeded(o.fields, n.fields), false))
      && (r.Done? && r.action.nonRecoverable ==>
            SomeSeed(n.fields, check, true) && r.action == Action(WalletsAffected(o, n), false, true))
      && (r.SeedCheckError? ==> SomeSeed(n.fields, check, false))
      && !r.TypeError?
  }

  // ----- sorting in place changes nothing that is compared -----

  predicate SameList(a: seq<string>, b: seq<string>) {
    multiset(a) == multiset(b)
  }

  /** The same configuration up to the order of its lists. */
  predicate Reordered(d: Data, e: Data) {
    && d.fields == e.fields
    && d.enabledPlugins.Some? == e.enabledPlugins.Some?
    && (d.enabledPlugins.Some? ==> SameList(d.enabledPlugins.value, e.enabledPlugins.value))
    && d.multisig.Some? == e.multisig.Some?
    && (d.multisig.Some? ==>
          && d.multisig.value.Keys == e.multisig.value.Keys
          && forall k | k in d.multisig.value ::
               && d.multisig.value[k].total == e.multisig.value[k].total
               && d.multisig.value[k].numSignatures == e.multisig.value[k].numSignatures
               && SameList(d.multisig.value[k].pubkeys, e.multisig.value[k].pubkeys))
  }

  lemma SortIsReordering(s: seq<string>)
    ensures SameList(s, Sort(s)) && Sort(Sort(s)) == Sort(s)
  {
    SortSorts(s);
    SameElementsSortSame(s, Sort(s));
  }

  lemma ReorderedSame(o: Data, n: Data, o': Data, n': Data, key: string)
    requires Reordered(o, o') && Reordered(n, n')
    ensures MultisigChanged(o, n, key) <==> MultisigChanged(o', n', key)
  {
    if HasMultisig(o, key) && HasMultisig(n, key) {
      SameElementsSortSame(o.multisig.value[key].pubkeys, o'.multisig.value[key].pubkeys);
      SameElementsSortSame(n.multisig.value[key].pubkeys, n'.multisig.value[key].pubkeys);
    }
  }

  // ----- the analysis -----

  class Config {
    const fields: Fields
    var enabledPlugins: Option<seq<string>>
    var multisig: Option<map<string, Multisig>>

    constructor (d: Data)
      ensures Contents() == d
    {
      fields, enabledPlugins, multisig := d.fields, d.enabledPlugins, d.multisig;
    }

    function Contents(): Data
      reads this
    {
      Data(fields, enabledPlugins, multisig)
    }

    /** Sorts the plugin list in place and joins it; a missing list stays `undefined`. */
    method JoinPlugins() returns (r: Option<string>)
      modifies this
      ensures Reordered(old(Contents()), Contents()) && multisig == old(multisig)
      ensures r == if old(enabledPlugins).None? then None else Some(Join(Sort(old(enabledPlugins).value), '#'))
    {
      if enabledPlugins.None? {
        return None;
      }
      SortIsReordering(enabledPlugins.value);
      enabledPlugins := Some(Sort(enabledPlugins.value));
      return Some(Join(enabledPlugins.value, '#'));
    }

    /** Sorts the public keys of one multisig entry in place and joins them. */
    method JoinPubkeys(key: string) returns (r: string)
      requires HasMultisig(Contents(), key)
      modifies this
      ensures Reordered(old(Contents()), Contents()) && enabledPlugins == old(enabledPlugins)
      ensures r == Join(Sort(old(multisig).value[key].pubkeys), ';')
    {
      var m := multisig.value[key];
      SortIsReordering(m.pubkeys);
      multisig := Some(multisig.value[key := m.(pubkeys := Sort(m.pubkeys))]);
      return Join(multisig.value[key].pubkeys, ';');
    }
  }

  method PluginsDiffer(oldConfig: Config, newConfig: Config) returns (differ: bool)
    requires oldConfig != newConfig
    modifies oldConfig, newConfig
    ensures Reordered(old(oldConfig.Contents()), oldConfig.Contents())
    ensures Reordered(old(newConfig.Contents()), newConfig.Contents())
    ensures differ <==> !SamePlugins(old(oldConfig.enabledPlugins), old(newConfig.enabledPlugins))
  {
    var o := oldConfig.JoinPlugins();
    var n := newConfig.JoinPlugins();
    return o != n;
  }

  method MultisigDiffers(oldConfig: Config, newConfig: Config, seedKey: string) returns (differ: bool)
    requires oldConfig != newConfig && HasMultisig(oldConfig.Contents(), seedKey)
    modifies oldConfig, newConfig
    ensures Reordered(old(oldConfig.Contents()), oldConfig.Contents())
    ensures Reordered(old(newConfig.Contents()), newConfig.Contents())
    ensures differ <==> MultisigChanged(old(oldConfig.Contents()), old(newConfig.Contents()), seedKey)
  {
    if !(newConfig.multisig.Some? && seedKey in newConfig.multisig.value) {
      return true;
    }
    if newConfig.multisig.value[seedKey].total != oldConfig.multisig.value[seedKey].total {
      return true;
    }
    if newConfig.multisig.value[seedKey].numSignatures != oldConfig.multisig.value[seedKey].numSignatures {
      return true;
    }
    var n := newConfig.JoinPubkeys(seedKey);
    var o := oldConfig.JoinPubkeys(seedKey);
    return n != o;
  }

  lemma NoSeedsNoneAffected(o: Data, n: Data)
    requires o.fields.seeds.None?
    ensures !WalletsAffected(o, n)
  {}

  lemma ReorderedSelf(d: Data)
    ensures Reordered(d, d)
  {}

  lemma ReorderedTransitive(d: Data, e: Data, f: Data)
    requires Reordered(d, e) && Reordered(e, f)
    ensures Reordered(d, f)
  {}

  /** The loop over the old seeds, in whatever order the object lists them. */
  method SeedsAffected(oldConfig: Config, newConfig: Config) returns (r: Option<bool>)
    requires oldConfig != newConfig && oldConfig.fields.seeds.Some?
    modifies oldConfig, newConfig
    ensures Reordered(old(oldConfig.Contents()), oldConfig.Contents())
    ensures Reordered(old(newConfig.Contents()), newConfig.Contents())
    ensures r.None? <==> SeedsMissing(oldConfig.fields, newConfig.fields)
    ensures r.Some? ==> (r.value <==> WalletsAffected(old(oldConfig.Contents()), old(newConfig.Contents())))
  {
    ghost var o, n := oldConfig.Contents(), newConfig.Contents();
    var seeds := oldConfig.fields.seeds.value;
    var rest := seeds.Keys;
    assert Reordered(o, o) && Reordered(n, n);
    while rest != {}
      invariant rest <= seeds.Keys
      invariant Reordered(o, oldConfig.Contents()) && Reordered(n, newConfig.Contents())
      invariant rest != seeds.Keys ==> newConfig.fields.seeds.Some?
      invariant forall key :: key in seeds && key !in rest ==>
                  !SeedChanged(o.fields, n.fields, key) && !MultisigChanged(o, n, key)
      decreases rest
    {
      var seedKey :| seedKey in rest;
      rest := rest - {seedKey};
      if newConfig.fields.seeds.None? {
        return None;
      }
      var newSeeds := newConfig.fields.seeds.value;
      if seedKey !in newSeeds || newSeeds[seedKey] != seeds[seedKey] {
        assert SeedChanged(o.fields, n.fields, seedKey);
        return Some(true);
      }
      if oldConfig.multisig.Some? && seedKey in oldConfig.multisig.value {
        ReorderedSame(o, n, oldConfig.Contents(), newConfig.Contents(), seedKey);
        ghost var o', n' := oldConfig.Contents(), newConfig.Contents();
        var differ := MultisigDiffers(oldConfig, newConfig, seedKey);
        ReorderedTransitive(o, o', oldConfig.Contents());
        ReorderedTransitive(n, n', newConfig.Contents());
        if differ {
          return Some(true);
        }
      }
    }
    return Some(false);
  }

  /** The loop over the new seeds: the first one that is not valid decides. */
  method CheckSeeds(fields: Fields, check: string -> WordsCheck) returns (r: WordsCheck)
    ensures r.Bad() ==> SomeSeed(fields, check, true)
    ensures r.OtherThrown? ==> SomeSeed(fields, check, false)
    ensures r.Valid? ==> !SomeSeed(fields, check, true) && !SomeSeed(fields, check, false)
  {
    if fields.seeds.None? {
      return WordsCheck.Valid;
    }
    var seeds := fields.seeds.value;
    var rest := seeds.Keys;
    while rest != {}
      invariant rest <= seeds.Keys
      invariant forall key :: key in seeds && key !in rest ==> check(seeds[key]).Valid?
      decreases rest
    {
      var key :| key in rest;
      rest := rest - {key};
      var outcome := check(seeds[key]);
      if !outcome.Valid? {
        return outcome;
      }
    }
    return WordsCheck.Valid;
  }

  method FixedDiffer(o: Fixed, n: Fixed) returns (differ: bool)
    ensures differ <==> o != n
  {
    return
      || o.httpPort != n.httpPort || o.httpBindAddress != n.httpBindAddress || o.httpApiKey != n.httpApiKey
      || o.consoleLevel != n.consoleLevel || o.httpLogFormat != n.httpLogFormat
      || o.hsmHost != n.hsmHost || o.hsmUsername != n.hsmUsername || o.hsmPassword != n.hsmPassword
      || o.fireblocksUrl != n.fireblocksUrl || o.fireblocksApiKey != n.fireblocksApiKey
      || o.fireblocksApiSecret != n.fireblocksApiSecret || o.fireblocksApiSecretFile != n.fireblocksApiSecretFile;
  }

  method AnalizeConfig(oldConfig: Config, newConfig: Config, check: string -> WordsCheck) returns (r: Analysis)
    requires oldConfig != newConfig
    modifies oldConfig, newConfig
    ensures Analysed(old(oldConfig.Contents()), old(newConfig.Contents()), check, r)
    ensures Reordered(old(oldConfig.Contents()), oldConfig.Contents())
    ensures Reordered(old(newConfig.Contents()), newConfig.Contents())
  {
    hide WalletsAffected, SomeSeed, Reordered;
    ghost var o, n := oldConfig.Contents(), newConfig.Contents();
    ReorderedSelf(o);
    ReorderedSelf(n);
    var fixedDiffer := FixedDiffer(oldConfig.fields.fixed, newConfig.fields.fixed);
    if fixedDiffer {
      return Done(Action(false, false, true));
    }
    var differ := PluginsDiffer(oldConfig, newConfig);
    if differ {
      return Done(Action(false, false, true));
    }
    ghost var o', n' := oldConfig.Contents(), newConfig.Contents();
    var stop, reconfig := false, false;
    if oldConfig.fields.seeds.Some? {
      var affected := SeedsAffected(oldConfig, newConfig);
      ReorderedTransitive(o, o', oldConfig.Contents());
      ReorderedTransitive(n, n', newConfig.Contents());
      if affected.None? {
        return TypeError;
      }
      ReorderedAffected(o, n, o', n');
      stop := affected.value;
    } else {
      NoSeedsNoneAffected(o, n);
    }
    var seedCheck := CheckSeeds(newConfig.fields, check);
    if seedCheck.Bad() {
      return Done(Action(stop, false, true));
    }
    if seedCheck.OtherThrown? {
      return SeedCheckError;
    }
    var of, nf := oldConfig.fields, newConfig.fields;
    if of.server != nf.server || of.network != nf.network {
      stop, reconfig := true, true;
    }
    if of.tokenUid != nf.tokenUid || of.gapLimit != nf.gapLimit || of.connectionTimeout != nf.connectionTimeout {
      stop := true;
    }
    if of.txMiningUrl != nf.txMiningUrl || of.atomicSwapService != nf.atomicSwapService
       || of.txMiningApiKey != nf.txMiningApiKey {
      reconfig := true;
    }
    return Done(Action(stop, reconfig, false));
  }

  lemma ReorderedAffected(o: Data, n: Data, o': Data, n': Data)
    requires Reordered(o, o') && Reordered(n, n')
    ensures WalletsAffected(o, n) <==> WalletsAffected(o', n')
  {
    hide Reordered, MultisigChanged;
    assert o.fields == o'.fields && n.fields == n'.fields by { SameFields(o, o'); SameFields(n, n'); }
    forall key
      ensures MultisigChanged(o, n, key) <==> MultisigChanged(o', n', key)
    {
      ReorderedSame(o, n, o', n', key);
    }
  }

  lemma SameFields(d: Data, e: Data)
    requires Reordered(d, e)
    ensures d.fields == e.fields
  {}

  // ----- what the comparisons mean -----

  /** A way of telling whether two lists are the same, given the separator they are joined with. */
  type Comparison = (seq<string>, seq<string>, char) -> bool

  /** What sorting and joining compares: the parts between separators, in the order of the sorted lists. */
  predicate SamePieces(a: seq<string>, b: seq<string>, sep: char) {
    Pieces(Sort(a), sep) == Pieces(Sort(b), sep)
  }

  /** What it is meant to compare: the elements, in whatever order. */
  predicate SameElements(a: seq<string>, b: seq<string>, sep: char) {
    SameList(a, b)
  }

  /** A wallet's multisig setup is still there, with the same participants. */
  predicate MultisigKept(o: Data, n: Data, key: string, same: Comparison) {
    HasMultisig(o, key) ==>
      && HasMultisig(n, key)
      && n.multisig.value[key].total == o.multisig.value[key].total
      && n.multisig.value[key].numSignatures == o.multisig.value[key].numSignatures
      && same(n.multisig.value[key].pubkeys, o.multisig.value[key].pubkeys, ';')
  }

  predicate PluginsKept(o: Data, n: Data, same: Comparison) {
    match (o.enabledPlugins, n.enabledPlugins)
    case (None, None) => true
    case (Some(p), Some(q)) => same(p, q, '#')
    case _ => false
  }

  /** Every old seed is still there, unchanged, with its multisig setup. */
  ghost predicate WalletsKept(o: Data, n: Data, same: Comparison) {
    o.fields.seeds.Some? ==> forall key | key in o.fields.seeds.value ::
      && n.fields.seeds.Some? && key in n.fields.seeds.value
      && n.fields.seeds.value[key] == o.fields.seeds.value[key]
      && MultisigKept(o, n, key, same)
  }

  /** The reasons to stop all wallets, and no others. */
  ghost predicate ReasonToStop(o: Data, n: Data, same: Comparison) {
    || !WalletsKept(o, n, same)
    || o.fields.server != n.fields.server || o.fields.network != n.fields.network
    || o.fields.tokenUid != n.fields.tokenUid || o.fields.gapLimit != n.fields.gapLimit
    || o.fields.connectionTimeout != n.fields.connectionTimeout
  }

  /** The reasons to configure the library again, and no others. */
  predicate ReasonToReconfigure(o: Fields, n: Fields) {
    || o.server != n.server || o.network != n.network
    || o.txMiningUrl != n.txMiningUrl || o.atomicSwapService != n.atomicSwapService
    || o.txMiningApiKey != n.txMiningApiKey
  }

  predicate FieldsKept(o: Data, n: Data, same: Comparison) {
    o.fields.fixed == n.fields.fixed && PluginsKept(o, n, same)
  }

  ghost predicate NewSeedChecks(n: Data, check: string -> WordsCheck, outcomes: set<WordsCheck>) {
    n.fields.seeds.Some? && exists key :: key in n.fields.seeds.value && check(n.fields.seeds.value[key]) in outcomes
  }

  /**
   * The four ways an analysis ends: the change of a fixed field or of the plugins is fatal at once; old seeds without
   * any new ones make it throw; a bad new seed is fatal or makes it throw; otherwise it acts for the listed reasons.
   */
  ghost predicate DecidesBy(o: Data, n: Data, check: string -> WordsCheck, r: Analysis, same: Comparison) {
    && (!FieldsKept(o, n, same) ==> r == Done(Action(false, false, true)))
    && (r == TypeError <==>
          && FieldsKept(o, n, same) && n.fields.seeds.None?
          && o.fields.seeds.Some? && exists key :: key in o.fields.seeds.value)
    && (r == SeedCheckError ==> FieldsKept(o, n, same) && NewSeedChecks(n, check, {OtherThrown}))
    && (r.Done? && r.action.nonRecoverable && FieldsKept(o, n, same) ==>
          && NewSeedChecks(n, check, {Invalid, InvalidWordsThrown})
          && !r.action.reconfigLib && (r.action.stopAllWallets <==> !WalletsKept(o, n, same)))
    && (r.Done? && !r.action.nonRecoverable ==>
          && FieldsKept(o, n, same) && !NewSeedChecks(n, check, {Invalid, InvalidWordsThrown, OtherThrown})
          && (r.action.stopAllWallets <==> ReasonToStop(o, n, same))
          && (r.action.reconfigLib <==> ReasonToReconfigure(o.fields, n.fields)))
  }

  /** Whatever the lists hold, an analysis that survives stops the wallets exactly for these reasons. */
  lemma AnalysisExact(o: Data, n: Data, check: string -> WordsCheck, r: Analysis)
    requires Analysed(o, n, check, r)
    ensures DecidesBy(o, n, check, r, SamePieces)
  {
    hide MultisigChanged, MultisigKept;
    forall key
      ensures MultisigChanged(o, n, key) <==> !MultisigKept(o, n, key, SamePieces)
    {
      MultisigKeptExactly(o, n, key);
    }
    if o.enabledPlugins.Some? && n.enabledPlugins.Some? {
      SameJoinedMeansSamePieces(o.enabledPlugins.value, n.enabledPlugins.value, '#');
    }
  }

  lemma MultisigKeptExactly(o: Data, n: Data, key: string)
    ensures MultisigChanged(o, n, key) <==> !MultisigKept(o, n, key, SamePieces)
  {
    if HasMultisig(o, key) && HasMultisig(n, key) {
      SameJoinedMeansSamePieces(n.multisig.value[key].pubkeys, o.multisig.value[key].pubkeys, ';');
    }
  }

  // ----- when that is what they are meant to compare -----

  /** Lists whose joined form is unambiguous: non-empty strings without the separator. */
  predicate Clean(s: seq<string>, sep: char) {
    Free(s, sep) && forall i :: 0 <= i < |s| ==> s[i] != ""
  }

  ghost predicate CleanLists(d: Data) {
    && (d.enabledPlugins.Some? ==> Clean(d.enabledPlugins.value, '#'))
    && (d.multisig.Some? ==> forall k | k in d.multisig.value :: Clean(d.multisig.value[k].pubkeys, ';'))
  }

  lemma CleanSamePieces(a: seq<string>, b: seq<string>, sep: char)
    requires Clean(a, sep) && Clean(b, sep)
    ensures SamePieces(a, b, sep) <==> SameElements(a, b, sep)
  {
    SameJoinedMeansSamePieces(a, b, sep);
    SameJoinedExactly(a, b, sep);
    assert a != [""] by { if a != [] { assert a[0] != ""; } }
    assert b != [""] by { if b != [] { assert b[0] != ""; } }
  }

  lemma CleanMultisigKept(o: Data, n: Data, key: string)
    requires CleanLists(o) && CleanLists(n)
    ensures MultisigKept(o, n, key, SamePieces) <==> MultisigKept(o, n, key, SameElements)
  {
    if HasMultisig(o, key) && HasMultisig(n, key) {
      CleanSamePieces(n.multisig.value[key].pubkeys, o.multisig.value[key].pubkeys, ';');
    }
  }

  /** On clean lists the analysis decides as documented: reordering a list is no change, anything else is. */
  lemma AnalysisOfCleanLists(o: Data, n: Data, check: string -> WordsCheck, r: Analysis)
    requires CleanLists(o) && CleanLists(n) && Analysed(o, n, check, r)
    ensures DecidesBy(o, n, check, r, SameElements)
  {
    hide MultisigKept, Analysed;
    AnalysisExact(o, n, check, r);
    forall key
      ensures MultisigKept(o, n, key, SamePieces) <==> MultisigKept(o, n, key, SameElements)
    {
      CleanMultisigKept(o, n, key);
    }
    if o.enabledPlugins.Some? && n.enabledPlugins.Some? {
      CleanSamePieces(o.enabledPlugins.value, n.enabledPlugins.value, '#');
    }
  }
}
