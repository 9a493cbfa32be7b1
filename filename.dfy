/** The download name of the Excel export: a default, overridden by the
    first match of the pattern `filename="?([^"]+)"?` in the
    Content-Disposition header. This is a simplified reading of the
    `filename` parameter of RFC 6266 section 4.3: quotes are not unescaped
    and the extended `filename*` form is not understood. */
module ExportFilename {
  import opened Wrappers

  const DefaultName: string := "TSI_WIP_Report.xlsx"

  /** The literal that opens the pattern. */
  const Key: string := "filename="

  predicate KeyAt(h: string, k: int) {
    0 <= k && k + |Key| <= |h| && h[k..k + |Key|] == Key
  }

  /** The longest run of non-quote characters of `h` starting at `j`: what
      the greedy `[^"]+` (or `[^"]*`) consumes there. */
  function NonQuoteRun(h: string, j: nat): (r: string)
    requires j <= |h|
    ensures j + |r| <= |h| && r == h[j..j + |r|]
    ensures forall c :: c in r ==> c != '"'
    ensures j + |r| == |h| || h[j + |r|] == '"'
    decreases |h| - j
  {
    if j == |h| || h[j] == '"' then "" else [h[j]] + NonQuoteRun(h, j + 1)
  }

  /** Where the capture group starts when the pattern is tried at `k`: one
      optional opening quote is taken greedily. Backing off the quote never
      helps, since the group cannot start on a quote. */
  function CaptureStart(h: string, k: nat): (j: nat)
    requires KeyAt(h, k)
    ensures j <= |h|
  {
    var j := k + |Key|;
    if j < |h| && h[j] == '"' then j + 1 else j
  }

  /** The capture of the pattern anchored at position `k`, if it matches
      there: the key, then the non-empty quote-free run. The closing `"?`
      always succeeds, so it adds no condition. */
  function MatchAt(h: string, k: nat): (m: Option<string>)
    ensures m.Some? ==> KeyAt(h, k) && m.value != [] && forall c :: c in m.value ==> c != '"'
    ensures m.Some? <==> KeyAt(h, k) && NonQuoteRun(h, CaptureStart(h, k)) != []
  {
    if KeyAt(h, k) && NonQuoteRun(h, CaptureStart(h, k)) != [] then
      Some(NonQuoteRun(h, CaptureStart(h, k)))
    else
      None
  }

  /** The leftmost position at or after `from` where the pattern matches. */
  function FirstMatchFrom(h: string, from: nat): (p: Option<nat>)
    ensures p.Some? ==> from <= p.value <= |h| && MatchAt(h, p.value).Some?
    ensures p.Some? ==> forall k :: from <= k < p.value ==> MatchAt(h, k).None?
    ensures p.None? ==> forall k :: from <= k <= |h| ==> MatchAt(h, k).None?
    decreases |h| + 1 - from
  {
    if from > |h| then None
    else if MatchAt(h, from).Some? then Some(from)
    else FirstMatchFrom(h, from + 1)
  }

  /** The file name `downloadExcel` saves under, given the header's value
      (None when the response has no such header). */
  function DownloadName(header: Option<string>): (name: string)
    ensures name != [] && forall c :: c in name ==> c != '"'
  {
    if header.None? || header.value == "" then DefaultName
    else
      match FirstMatchFrom(header.value, 0)
      case None => DefaultName
      case Some(k) => MatchAt(header.value, k).value
  }

  /** Without the header the default name is used. */
  lemma NoHeaderGivesDefault()
    ensures DownloadName(None) == DefaultName
  {
  }

  /** The name comes from the leftmost position of the header where the
      pattern matches; when it matches nowhere, the default stays. */
  lemma LeftmostMatchWins(h: string, k: nat)
    requires MatchAt(h, k).Some?
    requires forall i :: 0 <= i < k ==> MatchAt(h, i).None?
    ensures DownloadName(Some(h)) == MatchAt(h, k).value
  {
    var p := FirstMatchFrom(h, 0);
    assert p.Some?;
  }

  lemma NoMatchKeepsDefault(h: string)
    requires forall k :: 0 <= k <= |h| ==> MatchAt(h, k).None?
    ensures DownloadName(Some(h)) == DefaultName
  {
    if h != "" {
      var p := FirstMatchFrom(h, 0);
      assert p.None?;
    }
  }

  /** Without any `filename=` in the header, the default stays. */
  lemma NoKeyKeepsDefault(h: string)
    requires forall k :: !KeyAt(h, k)
    ensures DownloadName(Some(h)) == DefaultName
  {
    NoMatchKeepsDefault(h);
  }

  /** The run read right after a key at the end of `p` is the whole of `x`
      when `x` is quote-free and followed by a quote or by nothing. */
  lemma {:induction false} RunOfQuoteFree(h: string, j: nat, x: string)
    requires j + |x| <= |h| && h[j..j + |x|] == x
    requires forall c :: c in x ==> c != '"'
    requires j + |x| == |h| || h[j + |x|] == '"'
    ensures NonQuoteRun(h, j) == x
    decreases |x|
  {
    if x != [] {
      assert h[j] == x[0] && x[0] in x;
      assert forall c :: c in x[1..] ==> c in x;
      assert h[j + 1..j + 1 + |x[1..]|] == x[1..];
      RunOfQuoteFree(h, j + 1, x[1..]);
    }
  }

  /** A key cannot begin inside a prefix free of keys and end inside the
      key that follows it: `filename=` has no border, as its only `=` is
      its last character. */
  lemma KeyNotStraddling(p: string, rest: string, k: nat)
    requires forall i :: !KeyAt(p, i)
    requires k < |p|
    ensures !KeyAt(p + Key + rest, k)
  {
    var h := p + Key + rest;
    if k + |Key| <= |p| {
      assert !KeyAt(p, k);
      assert h[k..k + |Key|] == p[k..k + |Key|];
    } else {
      // the key's last character `=` would fall on one of the first
      // eight characters of the key that follows p
      var m := k + |Key| - 1 - |p|;
      assert 0 <= m < |Key| - 1;
      assert h[k + |Key| - 1] == Key[m];
      assert k + |Key| <= |h| ==> h[k..k + |Key|][|Key| - 1] == Key[m] != Key[|Key| - 1];
    }
  }

  /** The header as a server sends a quoted name: any preamble free of
      `filename=`, then `filename="x"`, then anything. The name read back
      is exactly `x`. */
  lemma QuotedNameRoundTrip(p: string, x: string, rest: string)
    requires forall i :: !KeyAt(p, i)
    requires x != [] && forall c :: c in x ==> c != '"'
    ensures DownloadName(Some(p + Key + "\"" + x + "\"" + rest)) == x
  {
    var h := p + Key + "\"" + x + "\"" + rest;
    var k := |p|;
    assert h == p + Key + ("\"" + x + "\"" + rest);
    assert h[k..k + |Key|] == Key;
    assert h[k + |Key|] == '"';
    var j := k + |Key| + 1;
    assert h[j..j + |x|] == x;
    assert h[j + |x|] == '"';
    RunOfQuoteFree(h, j, x);
    forall i | 0 <= i < k
      ensures MatchAt(h, i).None?
    {
      KeyNotStraddling(p, "\"" + x + "\"" + rest, i);
    }
    LeftmostMatchWins(h, k);
  }

  /** An unquoted value is read to the next quote or the end of the header,
      so it takes in any parameters that follow it. */
  lemma UnquotedNameRunsToEnd(p: string, x: string)
    requires forall i :: !KeyAt(p, i)
    requires x != [] && forall c :: c in x ==> c != '"'
    ensures DownloadName(Some(p + Key + x)) == x
  {
    var h := p + Key + x;
    var k := |p|;
    assert h[k..k + |Key|] == Key;
    var j := k + |Key|;
    assert h[j..j + |x|] == x;
    assert h[j] == x[0];
    RunOfQuoteFree(h, j, x);
    forall i | 0 <= i < k
      ensures MatchAt(h, i).None?
    {
      KeyNotStraddling(p, x, i);
    }
    LeftmostMatchWins(h, k);
  }

  /** Only the extended parameter of RFC 6266 section 4.3, with no plain
      `filename=`: in `filename*=` the key's `=` is preceded by `*`, so the
      key is found nowhere and the default stays. */
  lemma ExtendedFormAloneKeepsDefault(p: string, v: string)
    requires forall i | 0 <= i < |p| :: p[i] != '='
    requires forall i | 0 <= i < |v| :: v[i] != '='
    ensures DownloadName(Some(p + "filename*=" + v)) == DefaultName
  {
    var h := p + "filename*=" + v;
    var e := |p| + 9;
    forall k | 0 <= k
      ensures !KeyAt(h, k)
    {
      if k + |Key| <= |h| {
        var i := k + |Key| - 1;
        if i < |p| {
          assert h[i] == p[i];
        } else if i > e {
          assert h[i] == v[i - e - 1];
        } else if i == e {
          assert h[k..k + |Key|][7] == h[e - 1] == '*';
        } else {
          assert h[i] == "filename*="[i - |p|];
        }
      }
    }
    NoKeyKeepsDefault(h);
  }

  lemma ExtendedFormExample()
    ensures DownloadName(Some("attachment; filename*=UTF-8''report.xlsx")) == DefaultName
  {
    var p, v := "attachment; ", "UTF-8''report.xlsx";
    assert p + "filename*=" + v == "attachment; filename*=UTF-8''report.xlsx";
    ExtendedFormAloneKeepsDefault(p, v);
  }
}
