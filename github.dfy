/** The repository-name extraction of `connectGitHubRepo`
    (src/contexts/BoardContext.tsx:365-366): the text captured by the regular
    expression /github\.com\/([^/]+\/[^/]+)/, or the input unchanged when it does
    not match. Written as an explicit left-to-right scanner and proved equal to
    the leftmost-match reading of that expression. */
module GitHub {
  import opened Wrappers

  const Host: string := "github.com/"

  predicate NoSlash(t: string) {
    forall k :: 0 <= k < |t| ==> t[k] != '/'
  }

  /** `c` reads owner "/" repo, both parts non-empty and free of '/'. */
  predicate IsOwnerRepo(c: string) {
    exists m :: 0 < m < |c| - 1 && c[m] == '/' && NoSlash(c[..m]) && NoSlash(c[m + 1..])
  }

  /** The expression matches `s` at index `i` with capture group `cap`: `Host`,
      then `cap` (owner/repo), and the greedy repo part stops at a '/' or at the end. */
  ghost predicate MatchAt(s: string, i: int, cap: string) {
    && 0 <= i
    && i + |Host| + |cap| <= |s|
    && s[i..i + |Host|] == Host
    && s[i + |Host|..i + |Host| + |cap|] == cap
    && IsOwnerRepo(cap)
    && (i + |Host| + |cap| == |s| || s[i + |Host| + |cap|] == '/')
  }

  /** The end of the maximal run of non-'/' characters starting at `j`. */
  function RunEnd(s: string, j: nat): (k: nat)
    requires j <= |s|
    ensures j <= k <= |s|
    ensures forall t :: j <= t < k ==> s[t] != '/'
    ensures k == |s| || s[k] == '/'
    decreases |s| - j
  {
    if j == |s| || s[j] == '/' then j else RunEnd(s, j + 1)
  }

  /** A run ending at a '/' or at the end of `s` is the maximal one. */
  lemma RunEndUnique(s: string, j: nat, k: nat)
    requires j <= k <= |s|
    requires forall t :: j <= t < k ==> s[t] != '/'
    requires k == |s| || s[k] == '/'
    ensures RunEnd(s, j) == k
  {
  }

  /** Tries the expression at index `i` only. */
  function MatchHere(s: string, i: nat): Option<string>
    requires i <= |s|
  {
    if i + |Host| <= |s| && s[i..i + |Host|] == Host then
      var j := i + |Host|;
      var k := RunEnd(s, j);
      if j < k < |s| then
        var e := RunEnd(s, k + 1);
        if k + 1 < e then Some(s[j..e]) else None
      else None
    else None
  }

  lemma MatchHereSound(s: string, i: nat)
    requires i <= |s|
    ensures MatchHere(s, i).Some? ==> MatchAt(s, i, MatchHere(s, i).value)
  {
    if MatchHere(s, i).Some? {
      var j := i + |Host|;
      var k := RunEnd(s, j);
      var e := RunEnd(s, k + 1);
      var c := s[j..e];
      assert c[k - j] == '/';
      assert c[..k - j] == s[j..k];
      assert c[k - j + 1..] == s[k + 1..e];
      assert IsOwnerRepo(c);
    }
  }

  lemma MatchHereComplete(s: string, i: nat, cap: string)
    requires i <= |s|
    requires MatchAt(s, i, cap)
    ensures MatchHere(s, i) == Some(cap)
  {
    var j := i + |Host|;
    var m :| 0 < m < |cap| - 1 && cap[m] == '/' && NoSlash(cap[..m]) && NoSlash(cap[m + 1..]);
    forall t | j <= t < j + m ensures s[t] != '/' {
      assert s[t] == cap[..m][t - j];
    }
    assert s[j + m] == cap[m];
    RunEndUnique(s, j, j + m);
    forall t | j + m + 1 <= t < j + |cap| ensures s[t] != '/' {
      assert s[t] == cap[m + 1..][t - (j + m + 1)];
    }
    RunEndUnique(s, j + m + 1, j + |cap|);
  }

  /** The leftmost match at or after `from`. */
  function FindRepo(s: string, from: nat): Option<string>
    requires from <= |s|
    decreases |s| - from
  {
    var here := MatchHere(s, from);
    if here.Some? || from == |s| then here else FindRepo(s, from + 1)
  }

  lemma NoMatchHere(s: string, i: nat)
    requires i <= |s|
    requires MatchHere(s, i).None?
    ensures forall c :: !MatchAt(s, i, c)
  {
    forall c ensures !MatchAt(s, i, c) {
      if MatchAt(s, i, c) {
        MatchHereComplete(s, i, c);
      }
    }
  }

  lemma {:induction false} FindRepoSpec(s: string, from: nat)
    requires from <= |s|
    ensures FindRepo(s, from).Some? ==>
      exists i :: from <= i && MatchAt(s, i, FindRepo(s, from).value)
        && forall i', c :: from <= i' < i ==> !MatchAt(s, i', c)
    ensures FindRepo(s, from).None? ==> forall i, c :: from <= i ==> !MatchAt(s, i, c)
    decreases |s| - from
  {
    if MatchHere(s, from).Some? {
      MatchHereSound(s, from);
      assert MatchAt(s, from, FindRepo(s, from).value);
    } else {
      NoMatchHere(s, from);
      if from == |s| {
        assert forall i, c :: from <= i ==> !MatchAt(s, i, c);
      } else {
        assert FindRepo(s, from) == FindRepo(s, from + 1);
        FindRepoSpec(s, from + 1);
        if FindRepo(s, from).Some? {
          var i :| from + 1 <= i && MatchAt(s, i, FindRepo(s, from).value)
            && forall i', c :: from + 1 <= i' < i ==> !MatchAt(s, i', c);
          assert forall i', c :: from <= i' < i ==> !MatchAt(s, i', c);
        }
      }
    }
  }

  /** `repoMatch ? repoMatch[1] : repoUrl`. */
  function RepoName(url: string): string {
    match FindRepo(url, 0)
    case Some(c) => c
    case None => url
  }

  /** When the expression matches anywhere, the stored name is the capture of the
      leftmost match, of the form owner/repo; otherwise it is the raw input. */
  lemma RepoNameSpec(url: string)
    ensures (exists i, c :: MatchAt(url, i, c)) ==>
      IsOwnerRepo(RepoName(url))
      && exists i :: MatchAt(url, i, RepoName(url)) && forall i', c :: 0 <= i' < i ==> !MatchAt(url, i', c)
    ensures (forall i, c :: !MatchAt(url, i, c)) ==> RepoName(url) == url
  {
    FindRepoSpec(url, 0);
  }

  /** The capture at a given index is unique. */
  lemma MatchAtUnique(s: string, i: int, c1: string, c2: string)
    requires MatchAt(s, i, c1) && MatchAt(s, i, c2)
    ensures c1 == c2
  {
    MatchHereComplete(s, i, c1);
    MatchHereComplete(s, i, c2);
  }

  /** The sample URL matches at index 8, right after "https://". */
  lemma SampleUrlMatch(url: string, cap: string)
    requires cap == "acme/widgets" && url == "https://" + Host + cap
    ensures MatchAt(url, 8, cap)
  {
    assert url[8..8 + |Host|] == Host;
    assert url[8 + |Host|..8 + |Host| + |cap|] == cap;
    assert cap[4] == '/' && cap[..4] == "acme" && cap[5..] == "widgets";
  }

  /** No match can start where the text does not read 'g'. */
  lemma NoMatchWithoutG(s: string, i: int, c: string)
    requires 0 <= i < |s| && s[i] != 'g'
    ensures !MatchAt(s, i, c)
  {
    if i + |Host| <= |s| {
      assert s[i] == s[i..i + |Host|][0];
    }
  }

  /** A match at `k` with none before it decides the stored name. */
  lemma RepoNameOfLeftmost(url: string, k: int, cap: string)
    requires MatchAt(url, k, cap)
    requires forall i, c :: 0 <= i < k ==> !MatchAt(url, i, c)
    ensures RepoName(url) == cap
  {
    RepoNameSpec(url);
    var i :| MatchAt(url, i, RepoName(url)) && forall i', c :: 0 <= i' < i ==> !MatchAt(url, i', c);
    assert i == k;
    MatchAtUnique(url, k, cap, RepoName(url));
  }

  lemma RepoNameOfUrl()
    ensures RepoName("https://github.com/acme/widgets") == "acme/widgets"
  {
    SampleUrlName("https://github.com/acme/widgets", "acme/widgets");
  }

  /** The sample's stored name. The URL and capture are parameters equated with
      their literals, not the literals themselves: the verifier evaluates
      functions applied to literals eagerly, which makes the direct statement
      far more expensive to check. */
  lemma SampleUrlName(url: string, cap: string)
    requires cap == "acme/widgets" && url == "https://github.com/acme/widgets"
    ensures RepoName(url) == cap
  {
    SampleUrlShape(url, cap);
    SampleUrlMatch(url, cap);
    forall i, c | 0 <= i < 8 ensures !MatchAt(url, i, c) {
      NoMatchWithoutG(url, i, c);
    }
    RepoNameOfLeftmost(url, 8, cap);
  }

  /** The sample URL is "https://", the host, then the capture; no 'g' precedes the host
      (literals passed as parameters, as for `SampleUrlName`). */
  lemma SampleUrlShape(url: string, cap: string)
    requires cap == "acme/widgets" && url == "https://github.com/acme/widgets"
    ensures url == "https://" + Host + cap
    ensures forall t :: 0 <= t < 8 ==> url[t] != 'g'
  {
  }

  lemma RepoNameOfPlainText()
    ensures RepoName("not-a-url") == "not-a-url"
  {
    RepoNameSpec("not-a-url");
  }
}
