/**
  `parseRepoList`: the comma-separated list of `owner/repo` identifiers
  that names the repositories to scan.
 */
module RepoList {
  import opened Common
  import opened Strings

  datatype RepoTarget = RepoTarget(owner: string, repo: string, key: string)

  /** `Invalid repository identifier: <item>. Expected owner/repo format.` */
  datatype RepoListError = InvalidRepository(item: string)

  predicate IsNonEmpty(s: string) { s != [] }

  /** Each piece trimmed. */
  function TrimAll(parts: seq<string>): (r: seq<string>)
    ensures |r| == |parts| && forall k :: 0 <= k < |parts| ==> r[k] == Trim(parts[k])
  {
    seq(|parts|, k requires 0 <= k < |parts| => Trim(parts[k]))
  }

  /** The non-empty trimmed comma-separated items of `value`, in order. */
  function Items(value: string): seq<string>
  {
    Filter(TrimAll(Split(value, ',')), IsNonEmpty)
  }

  /**
    One item: the text before its first "/" is the owner and the text
    after it, up to the next "/" or the end, is the repository; either one
    empty (or no "/" at all) is an error naming the item.  Anything after a
    second "/" is ignored.
   */
  function ParseItem(item: string): (r: Result<RepoTarget, RepoListError>)
    ensures r.Ok? <==> exists i :: SlashAt(item, i)
    ensures r.Err? ==> r.error == InvalidRepository(item)
    ensures r.Ok? ==> var t := r.value;
      && t.owner != [] && t.repo != [] && '/' !in t.owner && '/' !in t.repo
      && t.key == t.owner + "/" + t.repo
      && StartsWith(item, t.key) && (|t.key| == |item| || item[|t.key|] == '/')
  {
    var parts := Split(item, '/');
    ItemPartsPresent(item);
    ItemKeyLayout(item);
    if parts[0] == [] || |parts| < 2 || parts[1] == [] then Err(InvalidRepository(item))
    else Ok(RepoTarget(parts[0], parts[1], parts[0] + "/" + parts[1]))
  }

  /** `item` has its first "/" at `i`, with text on both sides of it. */
  predicate SlashAt(item: string, i: int)
  {
    0 < i < |item| - 1 && item[i] == '/' && '/' !in item[..i] && item[i + 1] != '/'
  }

  /** The first two pieces of `item.split("/")` are both non-empty exactly when some `SlashAt` holds. */
  lemma ItemPartsPresent(item: string)
    ensures var parts := Split(item, '/');
      (parts[0] != [] && |parts| >= 2 && parts[1] != []) <==> exists i :: SlashAt(item, i)
  {
    if '/' !in item {
      SplitWithoutSep(item, '/');
      forall i | 0 <= i < |item| ensures item[i] != '/' {
        assert item[i] in item;
      }
    } else {
      var i := FirstIndexOf(item, '/');
      var rest := item[i + 1..];
      var parts := Split(item, '/');
      SplitAtFirst(item, '/', i);
      SplitHeadEmpty(rest, '/');
      assert parts[0] == item[..i] && |parts| >= 2 && parts[1] == Split(rest, '/')[0];
      if i < |item| - 1 {
        assert rest[0] == item[i + 1];
      }
      if parts[0] != [] && parts[1] != [] {
        assert SlashAt(item, i);
      }
      if exists i' :: SlashAt(item, i') {
        var i' :| SlashAt(item, i');
        assert parts[0] != [] && parts[1] != [];
      }
    }
  }

  /** When both parts are there, the item starts with "owner/repo", followed by the end or a "/". */
  lemma ItemKeyLayout(item: string)
    ensures var parts := Split(item, '/');
      parts[0] != [] && |parts| >= 2 && parts[1] != [] ==>
        var key := parts[0] + "/" + parts[1];
        StartsWith(item, key) && (|key| == |item| || item[|key|] == '/')
  {
    if '/' !in item {
      SplitWithoutSep(item, '/');
    } else {
      var i := FirstIndexOf(item, '/');
      SplitAtFirst(item, '/', i);
      var rest := item[i + 1..];
      var head := Split(rest, '/')[0];
      HeadBeforeSlash(rest);
      assert item == item[..i] + "/" + rest;
      KeyOfParts(item[..i], rest, head);
    }
  }

  /** The first piece of `rest.split("/")` is what comes before its first "/", or all of it. */
  lemma HeadBeforeSlash(rest: string)
    ensures var head := Split(rest, '/')[0];
      StartsWith(rest, head) && (|head| == |rest| || rest[|head|] == '/')
  {
    if '/' in rest {
      var j := FirstIndexOf(rest, '/');
      SplitAtFirst(rest, '/', j);
    } else {
      SplitWithoutSep(rest, '/');
    }
  }

  /** `owner + "/" + rest` starts with `owner + "/" + head` when `rest` starts with `head`. */
  lemma KeyOfParts(owner: string, rest: string, head: string)
    requires StartsWith(rest, head) && (|head| == |rest| || rest[|head|] == '/')
    ensures var item, key := owner + "/" + rest, owner + "/" + head;
      StartsWith(item, key) && (|key| == |item| || item[|key|] == '/')
  {
    var item, key := owner + "/" + rest, owner + "/" + head;
    assert item[..|key|] == owner + "/" + rest[..|head|];
    if |key| < |item| {
      assert item[|key|] == rest[|head|];
    }
  }

  /** The position of the first `c` in `s`. */
  function FirstIndexOf(s: string, c: char): (i: nat)
    requires c in s
    ensures i < |s| && s[i] == c && c !in s[..i]
  {
    if s[0] == c then 0
    else
      var i := FirstIndexOf(s[1..], c);
      assert s[..i + 1] == [s[0]] + s[1..][..i];
      i + 1
  }

  /** Every item parsed, or the error of the first item that does not parse. */
  function ParseItems(items: seq<string>): (r: Result<seq<RepoTarget>, RepoListError>)
    ensures r.Ok? <==> forall k :: 0 <= k < |items| ==> ParseItem(items[k]).Ok?
    ensures r.Ok? ==> |r.value| == |items| && forall k :: 0 <= k < |items| ==> Ok(r.value[k]) == ParseItem(items[k])
    ensures r.Err? ==> exists k :: (0 <= k < |items| && ParseItem(items[k]) == Err(r.error)
                                    && forall j :: 0 <= j < k ==> ParseItem(items[j]).Ok?)
  {
    if items == [] then Ok([])
    else
      match ParseItem(items[0])
      case Err(e) => Err(e)
      case Ok(t) =>
        var rest := ParseItems(items[1..]);
        assert forall k :: 1 <= k < |items| ==> items[1..][k - 1] == items[k];
        match rest
        case Err(e) => Err(e)
        case Ok(ts) => Ok([t] + ts)
  }

  /**
    `parseRepoList`: one target per non-empty trimmed comma-separated item,
    in order, or the error naming the first item without both parts.
   */
  function ParseRepoList(value: string): (r: Result<seq<RepoTarget>, RepoListError>)
    ensures var items := Items(value);
      && (r.Ok? <==> forall k :: 0 <= k < |items| ==> ParseItem(items[k]).Ok?)
      && (r.Ok? ==> |r.value| == |items|
                    && forall k :: 0 <= k < |items| ==> Ok(r.value[k]) == ParseItem(items[k]))
      && (r.Err? ==> exists k :: (0 <= k < |items| && r.error == InvalidRepository(items[k])
                                  && forall j :: 0 <= j < k ==> ParseItem(items[j]).Ok?))
  {
    ParseItems(Items(value))
  }

  /** A string with no white space at either end and no comma or slash. */
  predicate IsPlainName(s: string)
  {
    s != [] && !IsWhitespace(s[0]) && !IsWhitespace(s[|s| - 1]) && ',' !in s && '/' !in s
  }

  predicate IsWellFormed(t: RepoTarget)
  {
    IsPlainName(t.owner) && IsPlainName(t.repo) && t.key == t.owner + "/" + t.repo
  }

  function Keys(targets: seq<RepoTarget>): (r: seq<string>)
    ensures |r| == |targets| && forall k :: 0 <= k < |targets| ==> r[k] == targets[k].key
  {
    seq(|targets|, k requires 0 <= k < |targets| => targets[k].key)
  }

  /** Joining well-formed targets' keys with commas and parsing the result gives the targets back. */
  lemma ParseJoinedKeys(targets: seq<RepoTarget>)
    requires forall k :: 0 <= k < |targets| ==> IsWellFormed(targets[k])
    ensures ParseRepoList(Join(Keys(targets), ',')) == Ok(targets)
  {
    var keys := Keys(targets);
    var value := Join(keys, ',');
    if targets == [] {
      assert Split(value, ',') == [[]];
      assert Items(value) == [];
    } else {
      KeysAreItems(targets);
      ParseKeys(targets);
    }
  }

  /** The keys of well-formed targets, joined with commas, are that string's items. */
  lemma KeysAreItems(targets: seq<RepoTarget>)
    requires targets != []
    requires forall k :: 0 <= k < |targets| ==> IsWellFormed(targets[k])
    ensures Items(Join(Keys(targets), ',')) == Keys(targets)
  {
    var keys := Keys(targets);
    forall k | 0 <= k < |keys|
      ensures ',' !in keys[k] && Trim(keys[k]) == keys[k] && keys[k] != []
    {
      KeyIsPlain(targets[k]);
    }
    ItemsOfPlainJoin(keys);
  }

  lemma ItemsOfPlainJoin(keys: seq<string>)
    requires keys != []
    requires forall k :: 0 <= k < |keys| ==> ',' !in keys[k] && Trim(keys[k]) == keys[k] && keys[k] != []
    ensures Items(Join(keys, ',')) == keys
  {
    SplitJoin(keys, ',');
    TrimAllOfTrimmed(keys);
    FilterAll(keys, IsNonEmpty);
  }

  lemma TrimAllOfTrimmed(parts: seq<string>)
    requires forall k :: 0 <= k < |parts| ==> Trim(parts[k]) == parts[k]
    ensures TrimAll(parts) == parts
  {
  }

  lemma ParseKeys(targets: seq<RepoTarget>)
    requires forall k :: 0 <= k < |targets| ==> IsWellFormed(targets[k])
    ensures ParseItems(Keys(targets)) == Ok(targets)
  {
    var keys := Keys(targets);
    forall k | 0 <= k < |keys| ensures ParseItem(keys[k]) == Ok(targets[k]) {
      KeyParses(targets[k]);
    }
    var r := ParseItems(keys);
    assert r.Ok?;
    assert forall k :: 0 <= k < |keys| ==> r.value[k] == targets[k];
    assert r.value == targets;
  }

  lemma KeyIsPlain(t: RepoTarget)
    requires IsWellFormed(t)
    ensures ',' !in t.key && Trim(t.key) == t.key && t.key != []
  {
    assert t.key[0] == t.owner[0] && t.key[|t.key| - 1] == t.repo[|t.repo| - 1];
    TrimOfTrimmed(t.key);
    forall i | 0 <= i < |t.key| ensures t.key[i] != ',' {
      if i < |t.owner| {
        assert t.key[i] == t.owner[i] && t.owner[i] in t.owner;
      } else if |t.owner| < i {
        assert t.key[i] == t.repo[i - |t.owner| - 1] && t.repo[i - |t.owner| - 1] in t.repo;
      }
    }
  }

  lemma KeyParses(t: RepoTarget)
    requires IsWellFormed(t)
    ensures ParseItem(t.key) == Ok(t)
  {
    SplitJoin([t.owner, t.repo], '/');
    assert Join([t.owner, t.repo], '/') == t.key;
  }
}
