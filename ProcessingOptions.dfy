/** The processor options of the annotation-processing environment
    (JavacProcessingEnvironment.initProcessorOptions): every command-line
    option "-Akey", "-Akey=value" becomes an entry of an insertion-ordered
    map whose key or value may be null. */
module ProcessingOptions {
  import opened Wrappers
  import opened JavaText

  type OptionKey = Option<Text>
  type OptionValue = Option<Text>

  /** A LinkedHashMap: the keys in first-insertion order and the entries. */
  datatype OrderedMap = OrderedMap(order: seq<OptionKey>, entries: map<OptionKey, OptionValue>)

  ghost predicate OrderedMapValid(m: OrderedMap) {
    (forall i, j :: 0 <= i < j < |m.order| ==> m.order[i] != m.order[j])
    && (forall k :: k in m.entries <==> k in m.order)
  }

  /** Map.put: a new key goes to the end of the order, an existing one keeps
      its place and gets the new value. */
  function Put(m: OrderedMap, k: OptionKey, v: OptionValue): (r: OrderedMap)
    ensures OrderedMapValid(m) ==> OrderedMapValid(r)
    ensures r.entries == m.entries[k := v]
    ensures k in m.entries ==> r.order == m.order
    ensures k !in m.entries ==> r.order == m.order + [k]
  {
    if k in m.entries then OrderedMap(m.order, m.entries[k := v])
    else OrderedMap(m.order + [k], m.entries[k := v])
  }

  /** The entry one command-line option contributes, if it is a processor
      option: "-Akey" gives (key, null), "-Akey=value" gives (key, value),
      "-Akey=" gives (key, null), and "-A=..." gives (null, null). */
  function ParseOption(option: Text): (r: Option<(OptionKey, OptionValue)>)
    ensures r.Some? <==> |option| > 2 && option[..2] == "-A"
  {
    if |option| > 2 && option[..2] == "-A" then
      var sepIndex := IndexOf(option, '=');
      if sepIndex == -1 then Some((Some(option[2..]), None))
      else if sepIndex >= 3 then
        Some((Some(option[2..sepIndex]), if sepIndex < |option| - 1 then Some(option[sepIndex + 1..]) else None))
      else Some((None, None))
    else None
  }

  /** Writing an option out and parsing it back gives its key and value. */
  lemma ParseOptionRoundTrip(k: Text, v: Text)
    requires |k| > 0 && '=' !in k
    ensures ParseOption("-A" + k) == Some((Some(k), None))
    ensures ParseOption("-A" + k + "=" + v) == Some((Some(k), if |v| > 0 then Some(v) else None))
  {
    var plain := "-A" + k;
    assert plain[..2] == "-A" && plain[2..] == k;
    assert '=' !in plain by {
      assert forall i :: 2 <= i < |plain| ==> plain[i] == k[i - 2];
    }
    var full := "-A" + k + "=" + v;
    assert full[..2] == "-A";
    assert full == plain + ['='] + v;
    IndexOfAfter(plain, '=', v);
    assert full[2..|plain|] == k;
    assert full[|plain| + 1..] == v;
  }

  /** An option with "=" right after "-A" contributes a null key and value. */
  lemma ParseOptionNullKey(v: Text)
    ensures ParseOption("-A=" + v) == Some((None, None))
  {
    var full := "-A=" + v;
    assert full[2] == '=' && '=' !in full[..2];
    assert full[..2] == "-A";
  }

  /** The processor options of a sequence of command-line options, put in turn. */
  function OptionsOf(options: seq<Text>): OrderedMap
    decreases |options|
  {
    if |options| == 0 then OrderedMap([], map[])
    else
      var m := OptionsOf(options[..|options| - 1]);
      match ParseOption(options[|options| - 1])
      case None => m
      case Some((k, v)) => Put(m, k, v)
  }

  /** The key an option contributes. */
  predicate Contributes(option: Text, k: OptionKey) {
    ParseOption(option).Some? && ParseOption(option).value.0 == k
  }

  lemma {:induction false} OptionsOfValid(options: seq<Text>)
    ensures OrderedMapValid(OptionsOf(options))
    decreases |options|
  {
    if |options| > 0 {
      OptionsOfValid(options[..|options| - 1]);
    }
  }

  /** The entries after one more option: those before, updated by what the
      option contributes. */
  lemma OptionsOfStep(options: seq<Text>, k: OptionKey)
    requires |options| > 0
    ensures var last := options[|options| - 1];
      var before := OptionsOf(options[..|options| - 1]).entries;
      var after := OptionsOf(options).entries;
      (Contributes(last, k) ==> k in after && after[k] == ParseOption(last).value.1)
      && (!Contributes(last, k) ==> (k in after <==> k in before) && (k in before ==> after[k] == before[k]))
  {
  }

  /** A key is present exactly when some option contributes it. */
  lemma {:induction false} OptionsOfKeys(options: seq<Text>, k: OptionKey)
    ensures k in OptionsOf(options).entries <==> exists i :: 0 <= i < |options| && Contributes(options[i], k)
    decreases |options|
  {
    if |options| > 0 {
      var n := |options| - 1;
      var init := options[..n];
      OptionsOfKeys(init, k);
      OptionsOfStep(options, k);
      assert forall i :: 0 <= i < n ==> init[i] == options[i];
    }
  }

  /** The value of a present key is the one of the last option contributing it. */
  lemma {:induction false} OptionsOfLastWins(options: seq<Text>, k: OptionKey)
    requires k in OptionsOf(options).entries
    ensures exists i :: 0 <= i < |options| && LastContributor(options, k, OptionsOf(options).entries[k], i)
    decreases |options|
  {
    var n := |options| - 1;
    OptionsOfStep(options, k);
    var entries := OptionsOf(options).entries;
    if Contributes(options[n], k) {
      assert LastContributor(options, k, entries[k], n);
    } else {
      var init := options[..n];
      OptionsOfLastWins(init, k);
      var i :| 0 <= i < n && LastContributor(init, k, OptionsOf(init).entries[k], i);
      LastContributorExtends(init, options[n], k, entries[k], i);
      assert init + [options[n]] == options;
    }
  }

  /** The option at index i contributes k with value v and no later one
      contributes k. */
  predicate LastContributor(options: seq<Text>, k: OptionKey, v: OptionValue, i: nat) {
    i < |options| && Contributes(options[i], k) && v == ParseOption(options[i]).value.1
    && forall j :: i < j < |options| ==> !Contributes(options[j], k)
  }

  lemma LastContributorExtends(init: seq<Text>, last: Text, k: OptionKey, v: OptionValue, i: nat)
    requires LastContributor(init, k, v, i) && !Contributes(last, k)
    ensures LastContributor(init + [last], k, v, i)
  {
    var options := init + [last];
    assert forall j :: 0 <= j < |init| ==> options[j] == init[j];
  }

  /** initProcessorOptions: the options map built by a loop over the
      command-line option names. */
  method InitProcessorOptions(optionNames: seq<Text>) returns (processorOptions: OrderedMap)
    ensures processorOptions == OptionsOf(optionNames)
    ensures OrderedMapValid(processorOptions)
  {
    processorOptions := OrderedMap([], map[]);
    var i := 0;
    while i < |optionNames|
      invariant 0 <= i <= |optionNames|
      invariant processorOptions == OptionsOf(optionNames[..i])
    {
      var key := optionNames[i];
      if |key| > 2 && key[..2] == "-A" {
        var sepIndex := IndexOf(key, '=');
        var candidateKey: OptionKey := None;
        var candidateValue: OptionValue := None;
        if sepIndex == -1 {
          candidateKey := Some(key[2..]);
        } else if sepIndex >= 3 {
          candidateKey := Some(key[2..sepIndex]);
          candidateValue := if sepIndex < |key| - 1 then Some(key[sepIndex + 1..]) else None;
        }
        processorOptions := Put(processorOptions, candidateKey, candidateValue);
      }
      assert optionNames[..i + 1][..i] == optionNames[..i];
      i := i + 1;
    }
    assert optionNames[..i] == optionNames;
    OptionsOfValid(optionNames);
  }

  /** initUnmatchedProcessorOptions: every processor-option key starts out unmatched. */
  function InitialUnmatchedOptions(processorOptions: OrderedMap): (unmatched: set<OptionKey>)
    ensures forall k :: k in unmatched <==> k in processorOptions.entries
  {
    processorOptions.entries.Keys
  }
}
