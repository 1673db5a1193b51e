/**
 * Resolving a typed account path such as `Expenses:Groceries` or
 * `Assets/Bank/Checking` to one account, by one name lookup per segment.
 * The remote account index is a lookup function from a name to the
 * accounts with that name, already scoped to one entity.
 */
module Accounts {
  import opened Results
  import opened JsText

  datatype Account = Account(id: int, name: string)

  /** The errors `fetchAccountByPath` throws. */
  datatype AccountError =
    | NoAccountNamed(segment: string)
    | NoAccountAtPath(path: string)
  {
    function Message(): string
    {
      match this
      case NoAccountNamed(segment) => "No account found with name \"" + segment + "\""
      case NoAccountAtPath(path) => "No account found with path " + path
    }
  }

  // ----------------------------------------------------------- splitting

  predicate IsDelimiter(c: char) { c == '/' || c == ':' }

  /** The number of delimiters in a path. */
  function DelimiterCount(s: string): nat
  {
    if s == [] then 0 else (if IsDelimiter(s[0]) then 1 else 0) + DelimiterCount(s[1..])
  }

  predicate NoDelimiter(s: string)
  {
    forall j :: 0 <= j < |s| ==> !IsDelimiter(s[j])
  }

  /**
   * The pieces of `s` between delimiters, the first piece starting with
   * `current`; empty pieces are kept.
   */
  function SplitFrom(s: string, current: string): (segments: seq<string>)
    requires NoDelimiter(current)
    ensures |segments| == DelimiterCount(s) + 1
    ensures forall i :: 0 <= i < |segments| ==> NoDelimiter(segments[i])
  {
    if s == [] then [current]
    else if IsDelimiter(s[0]) then [current] + SplitFrom(s[1..], "")
    else SplitFrom(s[1..], current + [s[0]])
  }

  /**
   * `path.split(/[\/:]/)`: the pieces between delimiters, empty pieces
   * included; the empty path gives the single piece "".
   */
  function SplitPath(s: string): (segments: seq<string>)
    ensures |segments| == DelimiterCount(s) + 1
    ensures forall i :: 0 <= i < |segments| ==> NoDelimiter(segments[i])
  {
    SplitFrom(s, "")
  }

  /** The path with every ':' written as '/'. */
  function Canonical(s: string): string
  {
    if s == [] then [] else [if IsDelimiter(s[0]) then '/' else s[0]] + Canonical(s[1..])
  }

  /** Segments joined with '/'. */
  function JoinPath(segments: seq<string>): string
    requires |segments| >= 1
  {
    if |segments| == 1 then segments[0] else segments[0] + "/" + JoinPath(segments[1..])
  }

  lemma JoinPathCons(x: string, rest: seq<string>)
    requires |rest| >= 1
    ensures JoinPath([x] + rest) == x + "/" + JoinPath(rest)
  {
    assert ([x] + rest)[1..] == rest;
  }

  lemma {:induction false} SplitFromJoin(s: string, current: string)
    requires NoDelimiter(current)
    ensures JoinPath(SplitFrom(s, current)) == current + Canonical(s)
  {
    if s == [] {
      assert current + [] == current;
    } else if IsDelimiter(s[0]) {
      SplitFromJoin(s[1..], "");
      JoinDelimiterStep(s, current);
    } else {
      SplitFromJoin(s[1..], current + [s[0]]);
      JoinCharacterStep(s, current);
    }
  }

  lemma JoinDelimiterStep(s: string, current: string)
    requires s != [] && IsDelimiter(s[0]) && NoDelimiter(current)
    requires JoinPath(SplitFrom(s[1..], "")) == "" + Canonical(s[1..])
    ensures JoinPath(SplitFrom(s, current)) == current + Canonical(s)
  {
    var rest, c := SplitFrom(s[1..], ""), Canonical(s[1..]);
    assert SplitFrom(s, current) == [current] + rest;
    JoinPathCons(current, rest);
    assert "" + c == c;
    assert Canonical(s) == "/" + c;
    ConcatAssociative(current, "/", c);
  }

  lemma JoinCharacterStep(s: string, current: string)
    requires s != [] && !IsDelimiter(s[0]) && NoDelimiter(current)
    requires NoDelimiter(current + [s[0]])
    requires JoinPath(SplitFrom(s[1..], current + [s[0]])) == (current + [s[0]]) + Canonical(s[1..])
    ensures JoinPath(SplitFrom(s, current)) == current + Canonical(s)
  {
    assert SplitFrom(s, current) == SplitFrom(s[1..], current + [s[0]]);
    assert Canonical(s) == [s[0]] + Canonical(s[1..]);
    ConcatAssociative(current, [s[0]], Canonical(s[1..]));
  }

  /**
   * Splitting loses nothing but the choice of delimiter: joining the
   * segments with '/' gives the path with each ':' written as '/'.
   */
  lemma SplitPathJoin(s: string)
    ensures JoinPath(SplitPath(s)) == Canonical(s)
  {
    SplitFromJoin(s, "");
  }

  lemma {:induction false} SplitFromCanonical(s: string, current: string)
    requires NoDelimiter(current)
    ensures SplitFrom(s, current) == SplitFrom(Canonical(s), current)
  {
    if s != [] {
      assert Canonical(s)[0] == (if IsDelimiter(s[0]) then '/' else s[0]);
      assert Canonical(s)[1..] == Canonical(s[1..]);
      if IsDelimiter(s[0]) {
        SplitFromCanonical(s[1..], "");
      } else {
        SplitFromCanonical(s[1..], current + [s[0]]);
      }
    }
  }

  /** '/' and ':' are interchangeable: a path splits as its canonical form does. */
  lemma SplitPathMixedDelimiters(s: string)
    ensures SplitPath(s) == SplitPath(Canonical(s))
  {
    SplitFromCanonical(s, "");
  }

  /** Consecutive delimiters leave an empty segment between them. */
  lemma SplitPathKeepsEmptyPieces()
    ensures SplitPath("a//b") == ["a", "", "b"]
  {
    assert "a//b"[1..] == "//b" && "//b"[1..] == "/b" && "/b"[1..] == "b" && "b"[1..] == "";
    assert "" + ['b'] == "b";
    assert SplitFrom("b", "") == SplitFrom("", "b") == ["b"];
    assert SplitFrom("/b", "") == [""] + ["b"];
    assert SplitFrom("//b", "a") == ["a"] + ["", "b"];
    assert "" + ['a'] == "a";
    assert SplitFrom("a//b", "") == SplitFrom("//b", "a");
  }

  // ---------------------------------------------------------- resolution

  /** What a resolution returns, with the names looked up, in order. */
  datatype Resolution = Resolution(result: Result<Account, AccountError>, lookups: seq<string>)

  /**
   * The loop of `fetchAccountByPath` from a given point on: `segments` are
   * still to be looked up and `current` is the account found so far.
   */
  function Resolve(segments: seq<string>, current: Option<Account>, path: string,
                   lookup: string -> seq<Account>): (res: Resolution)
    // at most one lookup per segment, and at least one when there is a segment
    ensures |res.lookups| <= |segments|
    ensures segments != [] ==> |res.lookups| >= 1
    // a success has looked up every segment, in order
    ensures res.result.Ok? ==> res.lookups == segments
  {
    if segments == [] then
      Resolution(if current.None? then Err(NoAccountAtPath(path)) else Ok(current.value), [])
    else
      var accounts := lookup(segments[0]);
      if |accounts| == 0 then Resolution(Err(NoAccountNamed(segments[0])), [segments[0]])
      else
        var rest := Resolve(segments[1..], Some(accounts[0]), path, lookup);
        Resolution(rest.result, [segments[0]] + rest.lookups)
  }

  predicate AllFound(segments: seq<string>, lookup: string -> seq<Account>)
  {
    forall i :: 0 <= i < |segments| ==> |lookup(segments[i])| > 0
  }

  /**
   * Resolving at least one segment: it succeeds exactly when every segment
   * has a match, looks up every segment once and in order, and returns the
   * first match of the last segment.
   */
  lemma {:induction false} ResolveSuccess(segments: seq<string>, current: Option<Account>, path: string,
                                          lookup: string -> seq<Account>)
    requires |segments| >= 1
    ensures var res := Resolve(segments, current, path, lookup);
      && (res.result.Ok? <==> AllFound(segments, lookup))
      && (res.result.Ok? ==>
            res.lookups == segments && res.result.value == lookup(segments[|segments| - 1])[0])
  {
    if |lookup(segments[0])| > 0 && |segments| > 1 {
      ResolveSuccess(segments[1..], Some(lookup(segments[0])[0]), path, lookup);
      assert forall i :: 1 <= i < |segments| ==> segments[i] == segments[1..][i - 1];
    }
  }

  /**
   * Resolving at least one segment that fails: the names looked up are a
   * prefix of the segments, every one but the last had a match, the last
   * had none, nothing after it was looked up, and the error names it.
   */
  lemma {:induction false} ResolveFailure(segments: seq<string>, current: Option<Account>, path: string,
                                          lookup: string -> seq<Account>)
    requires |segments| >= 1
    ensures var res := Resolve(segments, current, path, lookup);
      res.result.Err? ==>
        var k := |res.lookups| - 1;
        && 1 <= |res.lookups| <= |segments|
        && res.lookups == segments[..|res.lookups|]
        && AllFound(res.lookups[..k], lookup)
        && |lookup(res.lookups[k])| == 0
        && res.result.error == NoAccountNamed(res.lookups[k])
  {
    if |lookup(segments[0])| > 0 && |segments| > 1 {
      var next := Some(lookup(segments[0])[0]);
      ResolveFailure(segments[1..], next, path, lookup);
      var rest := Resolve(segments[1..], next, path, lookup);
      assert Resolve(segments, current, path, lookup) == Resolution(rest.result, [segments[0]] + rest.lookups);
      if rest.result.Err? {
        FailedPrefixCons(segments[0], rest.lookups, segments[1..], lookup);
        assert [segments[0]] + segments[1..] == segments;
      }
    }
  }

  /**
   * Putting a segment with a match in front of a failed lookup sequence
   * keeps it a prefix of the segments whose last name alone had no match.
   */
  lemma FailedPrefixCons(first: string, rest: seq<string>, later: seq<string>, lookup: string -> seq<Account>)
    requires |lookup(first)| > 0 && 1 <= |rest| <= |later| && rest == later[..|rest|]
    requires AllFound(rest[..|rest| - 1], lookup)
    ensures var whole := [first] + rest;
      && whole == ([first] + later)[..|whole|]
      && AllFound(whole[..|rest|], lookup)
      && whole[|rest|] == rest[|rest| - 1]
  {
    var whole := [first] + rest;
    assert whole[..|rest|] == [first] + rest[..|rest| - 1];
  }

  /**
   * Each segment is looked up by name alone: once the first `k` segments
   * have matches, the outcome is that of resolving the remaining segments
   * from any starting account, whatever the earlier segments resolved to.
   */
  lemma {:induction false} ResolveAfterFoundPrefix(segments: seq<string>, k: nat, current: Option<Account>,
                                                   other: Option<Account>, path: string,
                                                   lookup: string -> seq<Account>)
    requires k < |segments| && AllFound(segments[..k], lookup)
    ensures var whole, tail := Resolve(segments, current, path, lookup), Resolve(segments[k..], other, path, lookup);
      whole.result == tail.result && whole.lookups == segments[..k] + tail.lookups
  {
    if k > 0 {
      FoundPrefixTail(segments, k, lookup);
      var next := Some(lookup(segments[0])[0]);
      ResolveAfterFoundPrefix(segments[1..], k - 1, next, other, path, lookup);
      var rest, tail := Resolve(segments[1..], next, path, lookup), Resolve(segments[k..], other, path, lookup);
      assert segments[1..][k - 1..] == segments[k..];
      assert Resolve(segments, current, path, lookup) == Resolution(rest.result, [segments[0]] + rest.lookups);
      ConcatAssociative([segments[0]], segments[1..][..k - 1], tail.lookups);
      assert segments[..k] == [segments[0]] + segments[1..][..k - 1];
    }
  }

  /** A found prefix of length `k > 0`: its first segment has a match and the rest is a found prefix of the tail. */
  lemma FoundPrefixTail(segments: seq<string>, k: nat, lookup: string -> seq<Account>)
    requires 0 < k <= |segments| && AllFound(segments[..k], lookup)
    ensures |lookup(segments[0])| > 0 && AllFound(segments[1..][..k - 1], lookup)
  {
    var found := segments[..k];
    assert found[0] == segments[0];
    var later := found[1..];
    forall i | 0 <= i < |later| ensures |lookup(later[i])| > 0 {
      assert later[i] == found[i + 1];
    }
    assert segments[1..][..k - 1] == later;
  }

  /** `fetchAccountByPath` never reaches its fallback "no account found with path" error. */
  lemma PathFallbackUnreachable(path: string, lookup: string -> seq<Account>)
    ensures Resolve(SplitPath(path), None, path, lookup).result != Err(NoAccountAtPath(path))
  {
    ResolveSuccess(SplitPath(path), None, path, lookup);
    ResolveFailure(SplitPath(path), None, path, lookup);
  }

  /** The empty path is the one segment "": one lookup, and the error names "" unless some account is named "". */
  lemma EmptyPath(lookup: string -> seq<Account>)
    ensures Resolve(SplitPath(""), None, "", lookup).lookups == [""]
    ensures |lookup("")| == 0 ==> Resolve(SplitPath(""), None, "", lookup).result == Err(NoAccountNamed(""))
  {
  }

  // -------------------------------------------------------------- method


  /**
   * `fetchAccountByPath`: shift segments off the split path one at a time,
   * look each up, stop with an error at the first that has no match, and
   * otherwise keep its first match. `lookups` records the names queried.
   */
  method FetchAccountByPath(path: string, lookup: string -> seq<Account>)
    returns (result: Result<Account, AccountError>, lookups: seq<string>)
    ensures Resolution(result, lookups) == Resolve(SplitPath(path), None, path, lookup)
  {
    var segments := SplitPath(path);
    var account: Option<Account> := None;
    lookups := [];
    while |segments| > 0
      invariant Resolve(SplitPath(path), None, path, lookup)
        == var rest := Resolve(segments, account, path, lookup); Resolution(rest.result, lookups + rest.lookups)
    {
      ghost var done := lookups;
      var segment := segments[0];
      segments := segments[1..];
      var accounts := lookup(segment);
      lookups := lookups + [segment];
      if |accounts| == 0 {
        result := Err(NoAccountNamed(segment));
        return;
      }
      account := Some(accounts[0]);
      ConcatAssociative(done, [segment], Resolve(segments, account, path, lookup).lookups);
    }
    if account.None? {
      result := Err(NoAccountAtPath(path));
      return;
    }
    result := Ok(account.value);
  }

  /** `fetchAccountId`: the id of the account the path resolves to. */
  method FetchAccountId(path: string, lookup: string -> seq<Account>)
    returns (result: Result<int, AccountError>, lookups: seq<string>)
    ensures var res := Resolve(SplitPath(path), None, path, lookup);
      && lookups == res.lookups
      && (res.result.Ok? ==> result == Ok(res.result.value.id))
      && (res.result.Err? ==> result == Err(res.result.error))
  {
    var account;
    account, lookups := FetchAccountByPath(path, lookup);
    if account.Err? {
      result := Err(account.error);
    } else {
      result := Ok(account.value.id);
    }
  }
}
