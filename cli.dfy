// What both revisions' cli.py check before building the settings:
// `_parse_key_value_option`, which turns `key=value` options into a
// dictionary, and the validation of `--log-level` against `LOG_LEVELS`.
module Cli {
  import opened Wrappers
  import opened Text

  /** The `typer.BadParameter`s these checks raise (the message text is not
      modelled). */
  datatype CliError =
    | NotKeyValue
    | EmptyOptionKey
    | InvalidLogLevel

  /** One option: split at the first `=`, key and value stripped; an empty
      value is allowed, an empty key is not. */
  function ParseOption(item: string): (r: Result<(string, string), CliError>)
    ensures r == Err(NotKeyValue) <==> '=' !in item
    ensures r.Ok? ==> r.value.0 != "" && Strip(r.value.0) == r.value.0 && Strip(r.value.1) == r.value.1
    ensures r.Ok? ==> '=' !in r.value.0
  {
    match SplitOnce(item, '=')
    case None => Err(NotKeyValue)
    case Some((key, val)) =>
      StripIdempotent(key);
      StripIdempotent(val);
      StripIsSlice(key);
      if Strip(key) == "" then Err(EmptyOptionKey) else Ok((Strip(key), Strip(val)))
  }

  /** A stripped string is a piece of the original. */
  lemma StripIsSlice(s: string)
    ensures exists i, j :: 0 <= i <= j <= |s| && Strip(s) == s[i..j]
  {
    var k := SkipSpaces(s, 0);
    var e := TrimSpaces(s, k, |s|);
    assert Strip(s) == s[k..e];
  }

  /** The text before the first `=` of `item`. */
  function KeyText(item: string): string
  {
    item[..IndexOf(item, '=')]
  }

  /** An item with an `=` fails exactly when its key is blank. */
  lemma ParseOptionEmptyKey(item: string)
    ensures ParseOption(item) == Err(EmptyOptionKey) <==> '=' in item && Strip(KeyText(item)) == ""
  {
    if '=' in item {
      SplitOnceAtIndexOf(item, '=');
    }
  }

  /** `SplitOnce` splits at `IndexOf`. */
  lemma SplitOnceAtIndexOf(s: string, c: char)
    requires c in s
    ensures var i := IndexOf(s, c);
            i < |s| && SplitOnce(s, c) == Some((s[..i], s[i + 1..]))
  {
  }

  /** Writing a clean key and value as `key=value` and parsing it gives them
      back: the value may hold further `=` signs. */
  lemma ParseOptionRoundTrip(key: string, val: string)
    requires key != "" && Strip(key) == key && '=' !in key && Strip(val) == val
    ensures ParseOption(key + "=" + val) == Ok((key, val))
  {
    var s := key + "=" + val;
    assert s[|key|] == '=';
    SplitOnceAtIndexOf(s, '=');
    var i := IndexOf(s, '=');
    assert i == |key|;
    assert s[..i] == key && s[i + 1..] == val;
  }

  /** What one item parses to. */
  type Entry = Result<(string, string), CliError>

  /** Every item parsed on its own. */
  function Entries(items: seq<string>): (es: seq<Entry>)
    ensures |es| == |items|
  {
    seq(|items|, i requires 0 <= i < |items| => ParseOption(items[i]))
  }

  /** The dictionary the loop has built from `entries`, or the error that
      stopped it: each entry overwrites the value of its key. */
  function Fill(entries: seq<Entry>): (r: Result<map<string, string>, CliError>)
    decreases |entries|
  {
    if entries == [] then Ok(map[])
    else
      match Fill(entries[..|entries| - 1])
      case Err(e) => Err(e)
      case Ok(m) =>
        match entries[|entries| - 1]
        case Err(e) => Err(e)
        case Ok(kv) => Ok(m[kv.0 := kv.1])
  }

  /** The result of `_parse_key_value_option(items)`. */
  function Options(items: seq<string>): Result<map<string, string>, CliError>
  {
    Fill(Entries(items))
  }

  /** `_parse_key_value_option`: fills the dictionary item by item and stops
      at the first malformed item. */
  method ParseKeyValueOption(items: seq<string>) returns (r: Result<map<string, string>, CliError>)
    ensures r == Options(items)
  {
    ghost var entries := Entries(items);
    var result: map<string, string> := map[];
    var n := 0;
    while n < |items|
      invariant 0 <= n <= |items|
      invariant Fill(entries[..n]) == Ok(result)
    {
      assert entries[..n + 1][..n] == entries[..n];
      assert entries[n] == ParseOption(items[n]);
      var parsed := ParseOption(items[n]);
      if parsed.Err? {
        FillErrorSticks(entries, n + 1);
        return Err(parsed.error);
      }
      var (key, val) := parsed.value;
      result := result[key := val];
      n := n + 1;
    }
    assert entries[..n] == entries;
    return Ok(result);
  }

  /** Once an entry fails, the error stays. */
  lemma {:induction false} FillErrorSticks(entries: seq<Entry>, n: nat)
    requires n <= |entries| && Fill(entries[..n]).Err?
    ensures Fill(entries) == Fill(entries[..n])
    decreases |entries| - n
  {
    if n < |entries| {
      assert entries[..n + 1][..n] == entries[..n];
      FillErrorSticks(entries, n + 1);
    } else {
      assert entries[..n] == entries;
    }
  }

  /** The entries before `i` all parse, and entry `i` fails. */
  predicate FirstBad(entries: seq<Entry>, i: int)
  {
    0 <= i < |entries| && entries[i].Err? && forall j :: 0 <= j < i ==> entries[j].Ok?
  }

  /** The fill succeeds exactly when every entry parses; otherwise the error
      is that of the first entry that fails. */
  lemma {:induction false} FillFailsAtFirstBadEntry(entries: seq<Entry>)
    ensures Fill(entries).Ok? <==> forall i :: 0 <= i < |entries| ==> entries[i].Ok?
    ensures Fill(entries).Err? ==> exists i :: FirstBad(entries, i) && Fill(entries).error == entries[i].error
    decreases |entries|
  {
    if entries != [] {
      var rest := entries[..|entries| - 1];
      FillFailsAtFirstBadEntry(rest);
      if Fill(rest).Err? {
        var i :| FirstBad(rest, i) && Fill(rest).error == rest[i].error;
        assert FirstBad(entries, i);
      } else if entries[|entries| - 1].Err? {
        assert FirstBad(entries, |entries| - 1);
      }
    }
  }

  /** No later entry sets the key of entry `i`. */
  predicate LastForKey(entries: seq<Entry>, i: nat)
    requires i < |entries| && entries[i].Ok?
  {
    forall j :: i < j < |entries| && entries[j].Ok? ==> entries[j].value.0 != entries[i].value.0
  }

  /** A successful fill has a key for every entry and no other. */
  lemma {:induction false} FillKeys(entries: seq<Entry>)
    requires Fill(entries).Ok?
    ensures forall k :: k in Fill(entries).value <==>
              exists i :: 0 <= i < |entries| && entries[i].Ok? && entries[i].value.0 == k
    decreases |entries|
  {
    if entries != [] {
      var rest := entries[..|entries| - 1];
      FillKeys(rest);
      forall k | k in Fill(rest).value
        ensures exists i :: 0 <= i < |entries| && entries[i].Ok? && entries[i].value.0 == k
      {
        var i :| 0 <= i < |rest| && rest[i].Ok? && rest[i].value.0 == k;
        assert entries[i] == rest[i];
      }
      forall k | exists i :: 0 <= i < |entries| && entries[i].Ok? && entries[i].value.0 == k
        ensures k in Fill(entries).value
      {
        var i :| 0 <= i < |entries| && entries[i].Ok? && entries[i].value.0 == k;
        if i < |rest| {
          assert rest[i] == entries[i];
        }
      }
    }
  }

  /** In a successful fill each key holds the value of its last entry: a
      later duplicate overwrites an earlier one. */
  lemma {:induction false} FillLastValueWins(entries: seq<Entry>)
    requires Fill(entries).Ok?
    ensures forall i :: 0 <= i < |entries| && entries[i].Ok? && LastForKey(entries, i) ==>
              entries[i].value.0 in Fill(entries).value
              && Fill(entries).value[entries[i].value.0] == entries[i].value.1
    decreases |entries|
  {
    if entries != [] {
      var rest := entries[..|entries| - 1];
      FillLastValueWins(rest);
      forall i | 0 <= i < |rest| && entries[i].Ok? && LastForKey(entries, i)
        ensures LastForKey(rest, i) && entries[|entries| - 1].value.0 != entries[i].value.0
      {
        assert entries[i] == rest[i];
      }
    }
  }

  /** The names of `LOG_LEVELS`. */
  const LogLevels: set<string> := {"critical", "error", "warning", "info", "debug"}

  /** The `--log-level` check: the level is lower-cased and must name one of
      `LOG_LEVELS`. */
  function CheckLogLevel(logLevel: string): (r: Result<string, CliError>)
    ensures r.Ok? <==> Lower(logLevel) in LogLevels
    ensures r.Ok? ==> r.value in LogLevels
    ensures r.Err? ==> r.error == InvalidLogLevel
  {
    var level := Lower(logLevel);
    if level !in LogLevels then Err(InvalidLogLevel) else Ok(level)
  }

  /** The check ignores case: a level and its lower-cased form fare alike. */
  lemma LogLevelCaseInsensitive(logLevel: string)
    ensures CheckLogLevel(Lower(logLevel)) == CheckLogLevel(logLevel)
  {
    LowerIdempotent(logLevel);
  }

  /** Each name of `LOG_LEVELS` passes as it is. */
  lemma LogLevelsAccepted(level: string)
    requires level in LogLevels
    ensures CheckLogLevel(level) == Ok(level)
  {
    assert forall i :: 0 <= i < |level| ==> 'a' <= level[i] <= 'z';
    assert Lower(level) == level;
  }
}
