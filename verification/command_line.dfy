/**
 * The seed-URL argument (src/utils/commandLineArgs.js) and the check in src/main.js
 * that decides between crawling and printing usage. The argument vector is a parameter
 * instead of the process's own.
 */
module CommandLine {
  import opened Wrappers

  const UrlFlag: string := "--url="

  /** `sub` occurs in `s` starting at index `i`. */
  predicate OccursAt(s: string, sub: string, i: int) {
    0 <= i && i + |sub| <= |s| && s[i..i + |sub|] == sub
  }

  /** `arg.indexOf('--url=') > -1`: the flag occurs anywhere in the argument. */
  predicate HasUrlFlag(arg: string) {
    exists i :: 0 <= i <= |arg| && OccursAt(arg, UrlFlag, i)
  }

  /** The first index at or after `from` that holds `c`, or `|s|` when there is none. */
  function IndexOfChar(s: string, c: char, from: nat): (i: nat)
    requires from <= |s|
    ensures from <= i <= |s|
    ensures i < |s| ==> s[i] == c
    ensures forall j :: from <= j < i ==> s[j] != c
    decreases |s| - from
  {
    if from == |s| || s[from] == c then from else IndexOfChar(s, c, from + 1)
  }

  /** `s` is `head`, an `'='`, `field`, and a `tail` that is empty or starts the next field. */
  predicate FieldSplit(s: string, head: string, field: string, tail: string) {
    s == head + "=" + field + tail && '=' !in head && (tail == [] || tail[0] == '=')
  }

  /**
   * `s.split('=')[1]`: the text after the first `'='` up to the next `'='` or the end.
   * It holds no `'='`, and `s` is the text before the first `'='`, the `'='`, this
   * field, and the rest.
   */
  function SecondField(s: string): (r: string)
    requires '=' in s
    ensures '=' !in r
    ensures exists head, tail :: FieldSplit(s, head, r, tail)
  {
    var a := IndexOfChar(s, '=', 0);
    assert a < |s| by {
      var k :| 0 <= k < |s| && s[k] == '=';
    }
    var b := IndexOfChar(s, '=', a + 1);
    var head, field, tail := s[..a], s[a + 1..b], s[b..];
    assert s == head + "=" + field + tail;
    assert '=' !in head by { assert forall j :: 0 <= j < a ==> head[j] == s[j]; }
    assert '=' !in field by { assert forall j :: 0 <= j < |field| ==> field[j] == s[a + 1 + j]; }
    assert tail == [] || tail[0] == '=';
    assert FieldSplit(s, head, field, tail);
    field
  }

  /** An argument holding the flag holds an `'='`. */
  lemma FlagHasEquals(arg: string)
    requires HasUrlFlag(arg)
    ensures '=' in arg
  {
    var i :| 0 <= i <= |arg| && OccursAt(arg, UrlFlag, i);
    assert arg[i..i + 6][5] == '=';
  }

  /** `getUrlArg`: the second `'='`-field of the first argument holding the flag, or `null`. */
  function GetUrlArg(argv: seq<string>): (r: Option<string>)
    ensures r.None? <==> forall i :: 0 <= i < |argv| ==> !HasUrlFlag(argv[i])
    ensures r.Some? ==> '=' !in r.value
  {
    if argv == [] then None
    else if HasUrlFlag(argv[0]) then
      FlagHasEquals(argv[0]);
      Some(SecondField(argv[0]))
    else
      var rest := GetUrlArg(argv[1..]);
      assert forall i :: 1 <= i < |argv| ==> argv[i] == argv[1..][i - 1];
      rest
  }

  /** Arguments before the first one holding the flag are skipped; later ones are never read. */
  lemma {:induction false} FirstFlaggedArgumentWins(argv: seq<string>, i: nat)
    requires i < |argv| && HasUrlFlag(argv[i])
    requires forall j :: 0 <= j < i ==> !HasUrlFlag(argv[j])
    ensures '=' in argv[i]
    ensures GetUrlArg(argv) == Some(SecondField(argv[i]))
    decreases i
  {
    FlagHasEquals(argv[i]);
    if i > 0 {
      assert argv[1..][i - 1] == argv[i];
      FirstFlaggedArgumentWins(argv[1..], i - 1);
    }
  }

  /** `"--url=" + url` yields `url` back when `url` holds no `'='`, and is cut at its first `'='` otherwise. */
  lemma {:induction false} UrlFlagRoundTrip(url: string, rest: string)
    requires '=' !in url
    ensures HasUrlFlag(UrlFlag + url)
    ensures GetUrlArg([UrlFlag + url]) == Some(url)
    ensures GetUrlArg([UrlFlag + url + "=" + rest]) == Some(url)
  {
    var s := UrlFlag + url;
    assert OccursAt(s, UrlFlag, 0) by { assert s[..6] == UrlFlag; }
    var t := UrlFlag + url + "=" + rest;
    assert OccursAt(t, UrlFlag, 0) by { assert t[..6] == UrlFlag; }
    assert IndexOfChar(s, '=', 0) == 5 by { assert s[5] == '='; assert forall j :: 0 <= j < 5 ==> s[j] == UrlFlag[j]; }
    assert IndexOfChar(t, '=', 0) == 5 by { assert t[5] == '='; assert forall j :: 0 <= j < 5 ==> t[j] == UrlFlag[j]; }
    var e := IndexOfChar(s, '=', 6);
    assert e == |s| by {
      assert forall j :: 6 <= j < |s| ==> s[j] == url[j - 6];
    }
    assert s[6..e] == url;
    var f := IndexOfChar(t, '=', 6);
    assert f == 6 + |url| by {
      assert t[6 + |url|] == '=';
      assert forall j :: 6 <= j < 6 + |url| ==> t[j] == url[j - 6];
    }
    assert t[6..f] == url;
  }

  /** The flag need not start the argument: it is found anywhere inside it. */
  lemma FlagInsideArgument()
    ensures GetUrlArg(["x--url=a"]) == Some("a")
  {
    var s := "x--url=a";
    assert OccursAt(s, UrlFlag, 1) by { assert s[1..7] == UrlFlag; }
    assert IndexOfChar(s, '=', 0) == 6;
    assert IndexOfChar(s, '=', 7) == 8;
    assert s[7..8] == "a";
  }

  /** `main`: a falsy URL (none found, or the empty string) means usage text and no crawl. */
  function StartUrl(argv: seq<string>): (url: Option<string>)
    ensures url.Some? <==> GetUrlArg(argv).Some? && GetUrlArg(argv).value != ""
    ensures url.Some? ==> url == GetUrlArg(argv)
  {
    match GetUrlArg(argv)
    case Some(u) => if u == "" then None else Some(u)
    case None => None
  }

  /** A bare `"--url="` gives the empty string, which `main` treats as missing. */
  lemma EmptyUrlShowsUsage(before: seq<string>)
    requires forall i :: 0 <= i < |before| ==> !HasUrlFlag(before[i])
    ensures GetUrlArg(before + [UrlFlag]) == Some("")
    ensures StartUrl(before + [UrlFlag]) == None
  {
    UrlFlagRoundTrip("", "");
    assert UrlFlag + "" == UrlFlag;
    var argv := before + [UrlFlag];
    FirstFlaggedArgumentWins(argv, |before|);
  }
}
