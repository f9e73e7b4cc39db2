/** Command filtering (internal/config/config.go): the fuzzy query filter,
    the platform filter and the data-file name test. */
module Config {
  import opened Commands
  import opened Text

  // ---------------------------------------------------------------------
  // Order-preserving selection, the specification of both list filters
  // ---------------------------------------------------------------------

  /** The elements of `s` that satisfy `keep`, in their original order. */
  function Select<T>(s: seq<T>, keep: T -> bool): seq<T>
  {
    if s == [] then []
    else Select(s[..|s| - 1], keep) + (if keep(s[|s| - 1]) then [s[|s| - 1]] else [])
  }

  /** `idx` maps every position of `a` to a position of `b` holding the same
      element, and the positions strictly increase. */
  ghost predicate Embeds<T>(a: seq<T>, b: seq<T>, idx: seq<int>) {
    && |idx| == |a|
    && (forall k :: 0 <= k < |idx| ==> 0 <= idx[k] < |b| && a[k] == b[idx[k]])
    && (forall k, l :: 0 <= k < l < |idx| ==> idx[k] < idx[l])
  }

  /** `a` is obtained from `b` by deleting elements, keeping the order. */
  ghost predicate IsSubsequence<T>(a: seq<T>, b: seq<T>) {
    exists idx :: Embeds(a, b, idx)
  }

  /** Selection deletes elements and never reorders them. */
  lemma {:induction false} SelectEmbeds<T>(s: seq<T>, keep: T -> bool) returns (idx: seq<int>)
    ensures Embeds(Select(s, keep), s, idx)
  {
    if s == [] {
      idx := [];
    } else {
      var init := s[..|s| - 1];
      var prev := SelectEmbeds(init, keep);
      if keep(s[|s| - 1]) {
        idx := prev + [|s| - 1];
      } else {
        idx := prev;
      }
    }
  }

  lemma SelectIsSubsequence<T>(s: seq<T>, keep: T -> bool)
    ensures IsSubsequence(Select(s, keep), s)
  {
    var idx := SelectEmbeds(s, keep);
  }

  /** Every element is kept exactly as often as it occurs in `s` when it
      satisfies `keep`, and dropped entirely otherwise. */
  lemma {:induction false} SelectCount<T>(s: seq<T>, keep: T -> bool, x: T)
    ensures multiset(Select(s, keep))[x] == if keep(x) then multiset(s)[x] else 0
  {
    if s != [] {
      var init := s[..|s| - 1];
      assert s == init + [s[|s| - 1]];
      SelectCount(init, keep, x);
    }
  }

  /** Membership form of `SelectCount`. */
  lemma SelectMembership<T>(s: seq<T>, keep: T -> bool, x: T)
    ensures x in Select(s, keep) <==> x in s && keep(x)
  {
  }

  /** A sequence whose every element is kept is its own selection. */
  lemma {:induction false} SelectKeepsAll<T>(s: seq<T>, keep: T -> bool)
    requires forall i :: 0 <= i < |s| ==> keep(s[i])
    ensures Select(s, keep) == s
  {
    if s != [] {
      var init := s[..|s| - 1];
      SelectKeepsAll(init, keep);
      assert s == init + [s[|s| - 1]];
    }
  }

  /** Selecting twice with the same predicate changes nothing further. */
  lemma SelectIdempotent<T>(s: seq<T>, keep: T -> bool)
    ensures Select(Select(s, keep), keep) == Select(s, keep)
  {
    var r := Select(s, keep);
    forall i | 0 <= i < |r|
      ensures keep(r[i])
    {
      SelectMembership(s, keep, r[i]);
    }
    SelectKeepsAll(r, keep);
  }

  /** Selecting over `s` extended by one element. */
  lemma SelectSnoc<T>(s: seq<T>, i: nat, keep: T -> bool)
    requires i < |s|
    ensures Select(s[..i + 1], keep) == Select(s[..i], keep) + (if keep(s[i]) then [s[i]] else [])
  {
    assert s[..i + 1][..i] == s[..i];
  }

  // ---------------------------------------------------------------------
  // FuzzyMatch and FilterCommands (config.go:333-371)
  // ---------------------------------------------------------------------

  /** Some tag contains `lowered` once lower-cased. */
  predicate SomeTagContains(tags: seq<string>, lowered: string) {
    exists i :: 0 <= i < |tags| && Contains(ToLower(tags[i]), lowered)
  }

  /** The matching rule: the lower-cased query is a substring of the
      lower-cased command text, of the lower-cased description, or of some
      lower-cased tag. */
  predicate Matches(c: Command, query: string) {
    var q := ToLower(query);
    Contains(ToLower(c.cmd), q) || Contains(ToLower(c.desc), q) || SomeTagContains(c.tags, q)
  }

  /** `Matches` as a predicate over commands, for `Select`. */
  function MatchesQuery(query: string): Command -> bool {
    c => Matches(c, query)
  }

  /** What `FilterCommands` returns: the input itself for the empty query,
      otherwise the matching entries in their original order. */
  function Filtered(commands: seq<Command>, query: string): seq<Command> {
    if query == "" then commands else Select(commands, MatchesQuery(query))
  }

  /** `FuzzyMatch`: tests the command text, then the description, then the
      tags one by one, returning as soon as one matches. */
  method FuzzyMatch(c: Command, query: string) returns (r: bool)
    ensures r == Matches(c, query)
  {
    var q := ToLower(query);
    if Contains(ToLower(c.cmd), q) {
      return true;
    }
    if Contains(ToLower(c.desc), q) {
      return true;
    }
    for i := 0 to |c.tags|
      invariant forall j :: 0 <= j < i ==> !Contains(ToLower(c.tags[j]), q)
    {
      if Contains(ToLower(c.tags[i]), q) {
        return true;
      }
    }
    return false;
  }

  /** `FilterCommands`: the empty query returns the input unchanged; any
      other query keeps the matching entries in order. */
  method FilterCommands(commands: seq<Command>, query: string) returns (filtered: seq<Command>)
    ensures query == "" ==> filtered == commands
    ensures filtered == Select(commands, MatchesQuery(query))
  {
    if query == "" {
      EmptyQueryMatchesAll(commands);
      return commands;
    }
    filtered := [];
    for i := 0 to |commands|
      invariant filtered == Select(commands[..i], MatchesQuery(query))
    {
      var m := FuzzyMatch(commands[i], query);
      SelectSnoc(commands, i, MatchesQuery(query));
      if m {
        filtered := filtered + [commands[i]];
      }
    }
    assert commands[..|commands|] == commands;
  }

  /** The empty query matches every entry, so selecting with it is the
      identity: the special case at config.go:359 agrees with the loop. */
  lemma EmptyQueryMatchesAll(commands: seq<Command>)
    ensures Select(commands, MatchesQuery("")) == commands
  {
    forall i | 0 <= i < |commands|
      ensures MatchesQuery("")(commands[i])
    {
      ContainsEmpty(ToLower(commands[i].cmd));
    }
    SelectKeepsAll(commands, MatchesQuery(""));
  }

  /** For every query the filter is the order-preserving selection of the
      matching entries. */
  lemma FilteredIsSelection(commands: seq<Command>, query: string)
    ensures Filtered(commands, query) == Select(commands, MatchesQuery(query))
  {
    if query == "" {
      EmptyQueryMatchesAll(commands);
    }
  }

  /** The filter's result is a subsequence of its input. */
  lemma FilteredIsSubsequence(commands: seq<Command>, query: string)
    ensures IsSubsequence(Filtered(commands, query), commands)
  {
    FilteredIsSelection(commands, query);
    SelectIsSubsequence(commands, MatchesQuery(query));
  }

  /** An entry occurs in the result exactly as often as in the input when it
      matches, and not at all otherwise. */
  lemma FilteredCount(commands: seq<Command>, query: string, c: Command)
    ensures multiset(Filtered(commands, query))[c] ==
            if Matches(c, query) then multiset(commands)[c] else 0
  {
    FilteredIsSelection(commands, query);
    SelectCount(commands, MatchesQuery(query), c);
  }

  /** Filtering the result again with the same query returns it unchanged. */
  lemma FilteredIdempotent(commands: seq<Command>, query: string)
    ensures Filtered(Filtered(commands, query), query) == Filtered(commands, query)
  {
    FilteredIsSelection(commands, query);
    FilteredIsSelection(Filtered(commands, query), query);
    SelectIdempotent(commands, MatchesQuery(query));
  }

  /** Two strings equal up to ASCII case. */
  predicate SameUpToCase(a: string, b: string) {
    ToLower(a) == ToLower(b)
  }

  /** Two commands whose searchable fields are equal up to ASCII case. */
  predicate SameFieldsUpToCase(c: Command, d: Command) {
    && SameUpToCase(c.cmd, d.cmd)
    && SameUpToCase(c.desc, d.desc)
    && |c.tags| == |d.tags|
    && forall i :: 0 <= i < |c.tags| ==> SameUpToCase(c.tags[i], d.tags[i])
  }

  /** Matching ignores case: changing the case of the query or of any
      searched field does not change the outcome. */
  lemma MatchesIgnoresCase(c: Command, d: Command, query: string, query': string)
    requires SameFieldsUpToCase(c, d) && SameUpToCase(query, query')
    ensures Matches(c, query) == Matches(d, query')
  {
  }

  /** Lower-casing a command's searchable fields. */
  function LowerFields(c: Command): (d: Command)
    ensures SameFieldsUpToCase(c, d)
  {
    var d := c.(cmd := ToLower(c.cmd), desc := ToLower(c.desc),
                tags := seq(|c.tags|, i requires 0 <= i < |c.tags| => ToLower(c.tags[i])));
    ToLowerIdempotent(c.cmd);
    ToLowerIdempotent(c.desc);
    forall i | 0 <= i < |c.tags|
      ensures SameUpToCase(c.tags[i], d.tags[i])
    {
      ToLowerIdempotent(c.tags[i]);
    }
    d
  }

  /** Consequently the match is decided on the lower-cased entry and query. */
  lemma MatchesLowered(c: Command, query: string)
    ensures Matches(c, query) == Matches(LowerFields(c), ToLower(query))
  {
    ToLowerIdempotent(query);
    MatchesIgnoresCase(c, LowerFields(c), query, ToLower(query));
  }

  // ---------------------------------------------------------------------
  // FilterByPlatform (config.go:34-55), the OS passed in
  // ---------------------------------------------------------------------

  /** An entry is usable on `os` when it names no platform or names `os`. */
  predicate AvailableOn(c: Command, os: string) {
    |c.platform| == 0 || os in c.platform
  }

  function RunsOn(os: string): Command -> bool {
    c => AvailableOn(c, os)
  }

  /** `FilterByPlatform` with `runtime.GOOS` given as `currentOS`: keeps the
      usable entries in order, appending each at most once (the inner loop
      stops at the first platform that names the OS). */
  method FilterByPlatform(commands: seq<Command>, currentOS: string) returns (filtered: seq<Command>)
    ensures filtered == Select(commands, RunsOn(currentOS))
  {
    filtered := [];
    for i := 0 to |commands|
      invariant filtered == Select(commands[..i], RunsOn(currentOS))
    {
      var cmd := commands[i];
      SelectSnoc(commands, i, RunsOn(currentOS));
      if |cmd.platform| == 0 {
        filtered := filtered + [cmd];
      } else {
        var found := false;
        var j := 0;
        while j < |cmd.platform| && !found
          invariant 0 <= j <= |cmd.platform|
          invariant !found ==> forall k :: 0 <= k < j ==> cmd.platform[k] != currentOS
          invariant found ==> currentOS in cmd.platform
          invariant filtered == Select(commands[..i], RunsOn(currentOS)) + (if found then [cmd] else [])
        {
          if cmd.platform[j] == currentOS {
            filtered := filtered + [cmd];
            found := true;
          }
          j := j + 1;
        }
      }
    }
    assert commands[..|commands|] == commands;
  }

  /** The platform filter keeps each usable entry exactly as often as it
      occurs, drops every other entry, and preserves order. */
  lemma PlatformFilterKeepsUsable(commands: seq<Command>, os: string, c: Command)
    ensures multiset(Select(commands, RunsOn(os)))[c] ==
            if AvailableOn(c, os) then multiset(commands)[c] else 0
    ensures IsSubsequence(Select(commands, RunsOn(os)), commands)
  {
    SelectCount(commands, RunsOn(os), c);
    SelectIsSubsequence(commands, RunsOn(os));
  }

  // ---------------------------------------------------------------------
  // The data-file name test (config.go:299)
  // ---------------------------------------------------------------------

  /** `name` ends, ignoring ASCII case, with the lower-case `ext`. */
  predicate EndsWithIgnoringCase(name: string, ext: string) {
    |ext| <= |name| && ToLower(name[|name| - |ext|..]) == ext
  }

  /** The directory loader's test: the lower-cased name ends with ".yaml"
      or ".yml". */
  predicate IsYamlFileName(name: string) {
    var lower := ToLower(name);
    HasSuffix(lower, ".yaml") || HasSuffix(lower, ".yml")
  }

  /** A file is read iff its name ends with ".yaml" or ".yml" in any mix of
      upper and lower case. */
  lemma YamlFileNameIgnoresCase(name: string)
    ensures IsYamlFileName(name) <==>
            EndsWithIgnoringCase(name, ".yaml") || EndsWithIgnoringCase(name, ".yml")
  {
  }
}
