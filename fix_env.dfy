/** The `.env` repair script (fix-env.js): three regular-expression rewrites that turn a pasted
    Google Drive folder URL, a pasted Google Sheet URL, or a Sheet ID with a trailing `/...` or
    `?...` into a bare ID, and a write of the file only when one of them changed something.
    The regular expressions are modelled by what they match: the leftmost position where the
    pattern can start, with the greedy `.*` and `+` resolved as JavaScript resolves them. */
module FixEnv {
  import opened Wrappers
  import opened Text

  const DriveKey := "GOOGLE_DRIVE_FOLDER_ID="
  const SheetKey := "GOOGLE_SHEET_ID="
  const FoldersMarker := "/folders/"
  const DocMarker := "/d/"

  /** `[a-zA-Z0-9-_]`. */
  predicate IsIdChar(c: char)
  {
    IsAsciiAlnum(c) || c == '-' || c == '_'
  }

  /** The characters `.` does not match without the `s` flag. */
  predicate IsLineBreak(c: char)
  {
    c == '\n' || c == '\r' || c == '\U{2028}' || c == '\U{2029}'
  }

  /** Where the line containing position `i` ends: how far `.*` reaches from `i`. */
  function LineEnd(s: string, i: nat): (e: nat)
    requires i <= |s|
    ensures i <= e <= |s|
    ensures forall k :: i <= k < e ==> !IsLineBreak(s[k])
    ensures e < |s| ==> IsLineBreak(s[e])
    decreases |s| - i
  {
    if i == |s| || IsLineBreak(s[i]) then i else LineEnd(s, i + 1)
  }

  /** Where the run of ID characters starting at `i` ends: how far `[a-zA-Z0-9-_]+` reaches. */
  function IdRunEnd(s: string, i: nat): (e: nat)
    requires i <= |s|
    ensures i <= e <= |s|
    ensures forall k :: i <= k < e ==> IsIdChar(s[k])
    ensures e < |s| ==> !IsIdChar(s[e])
    decreases |s| - i
  {
    if i == |s| || !IsIdChar(s[i]) then i else IdRunEnd(s, i + 1)
  }

  /** The three rules: a URL rule is `KEY.*MARKER([a-zA-Z0-9-_]+).*`, the dirty-ID rule is
      `KEY([a-zA-Z0-9-_]+)[\/?].*`. In each, `key` is also the text the line is rewritten to,
      before the ID. */
  datatype Rule = UrlRule(key: string, marker: string) | DirtyRule(key: string)

  const DriveUrlRule := UrlRule(DriveKey, FoldersMarker)
  const SheetUrlRule := UrlRule(SheetKey, DocMarker)
  const SheetDirtyRule := DirtyRule(SheetKey)

  /** A match: the whole matched text is `s[start..end]`, `id` is the captured group. */
  datatype Match = Match(start: nat, end: nat, id: string)

  /** `marker` at `q`, followed by at least one ID character, all before `lineEnd`. */
  predicate MarkerAt(s: string, marker: string, q: nat, lineEnd: nat)
  {
    q + |marker| < lineEnd <= |s| && OccursAt(s, marker, q) && IsIdChar(s[q + |marker|])
  }

  /** The greedy `.*` before the marker backs off as little as it can: the match uses the last
      marker position in `[from, lineEnd)`. */
  function LastMarker(s: string, marker: string, from: nat, lineEnd: nat): (r: Option<nat>)
    ensures r.Some? ==> from <= r.value && MarkerAt(s, marker, r.value, lineEnd)
    ensures r.Some? ==> forall q :: r.value < q ==> !MarkerAt(s, marker, q, lineEnd)
    ensures r.None? ==> forall q :: from <= q ==> !MarkerAt(s, marker, q, lineEnd)
    decreases lineEnd - from
  {
    if from >= lineEnd then None
    else
      var later := LastMarker(s, marker, from + 1, lineEnd);
      if later.Some? then later
      else if MarkerAt(s, marker, from, lineEnd) then Some(from)
      else None
  }

  /** `KEY.*MARKER([a-zA-Z0-9-_]+).*` starting at `i`: the ID follows the last marker of the
      line, and the match runs to the end of the line. */
  function UrlMatchAt(s: string, key: string, marker: string, i: nat): Option<Match>
  {
    if !OccursAt(s, key, i) then None
    else
      var a := i + |key|;
      var e := LineEnd(s, a);
      match LastMarker(s, marker, a, e)
      case None => None
      case Some(q) =>
        var b := q + |marker|;
        Some(Match(i, e, s[b..IdRunEnd(s, b)]))
  }

  /** `KEY([a-zA-Z0-9-_]+)[\/?].*` starting at `i`: the whole ID run, then `/` or `?`. */
  function DirtyMatchAt(s: string, key: string, i: nat): Option<Match>
  {
    if !OccursAt(s, key, i) then None
    else
      var a := i + |key|;
      var r := IdRunEnd(s, a);
      if r > a && r < |s| && (s[r] == '/' || s[r] == '?') then Some(Match(i, LineEnd(s, r + 1), s[a..r]))
      else None
  }

  /** The match of `rule` starting at `i`, if the pattern can start there. */
  function MatchAt(s: string, rule: Rule, i: nat): (r: Option<Match>)
    ensures r.Some? ==>
      && r.value.start == i && OccursAt(s, rule.key, i)
      && i + |rule.key| <= r.value.end <= |s|
      && r.value.id != [] && (forall k :: 0 <= k < |r.value.id| ==> IsIdChar(r.value.id[k]))
      && (forall k :: i + |rule.key| <= k < r.value.end ==> !IsLineBreak(s[k]))
      && (r.value.end < |s| ==> IsLineBreak(s[r.value.end]))
  {
    match rule
    case UrlRule(key, marker) => UrlMatchAt(s, key, marker, i)
    case DirtyRule(key) => DirtyMatchAt(s, key, i)
  }

  /** `content.match(regex)` without the `g` flag: the leftmost match at or after `from`. */
  function FirstMatch(s: string, rule: Rule, from: nat): (r: Option<Match>)
    ensures r.Some? ==> from <= r.value.start && MatchAt(s, rule, r.value.start) == r
    ensures r.Some? ==> forall p :: from <= p < r.value.start ==> MatchAt(s, rule, p).None?
    ensures r.None? ==> forall p :: from <= p ==> MatchAt(s, rule, p).None?
    decreases |s| - from
  {
    if from > |s| then None
    else if MatchAt(s, rule, from).Some? then MatchAt(s, rule, from)
    else FirstMatch(s, rule, from + 1)
  }

  /** One rewrite: `content.replace(fullLine, key + id)` when the rule matches (and, for the
      dirty-ID rule, the matched text has no `http`); `None` when it leaves the content alone. */
  function Rewrite(s: string, rule: Rule): Option<string>
  {
    match FirstMatch(s, rule, 0)
    case None => None
    case Some(m) =>
      var fullLine := s[m.start..m.end];
      if rule.DirtyRule? && Contains(fullLine, "http") then None
      else Some(ReplaceFirst(s, fullLine, rule.key + m.id))
  }

  function Step(s: string, rule: Rule): string
  {
    match Rewrite(s, rule)
    case None => s
    case Some(t) => t
  }

  /** The content after the three rewrites, in the script's order. */
  function Fixed(s: string): string
  {
    Step(Step(Step(s, DriveUrlRule), SheetUrlRule), SheetDirtyRule)
  }

  /** Whether any of the three rewrites fired. */
  predicate AnyRewrite(s: string)
  {
    || Rewrite(s, DriveUrlRule).Some?
    || Rewrite(Step(s, DriveUrlRule), SheetUrlRule).Some?
    || Rewrite(Step(Step(s, DriveUrlRule), SheetUrlRule), SheetDirtyRule).Some?
  }

  // ---------------------------------------------------------------------------
  // What a rewrite does

  /** A character of a copied stretch of text equals its original. */
  lemma CharCopied(s: string, p: nat, i: nat, len: nat, j: nat)
    requires p + len <= |s| && i + len <= |s|
    requires s[p..p + len] == s[i..i + len]
    requires p <= j < p + len
    ensures s[j] == s[j - p + i]
  {
    assert s[j] == s[p..p + len][j - p];
    assert s[j - p + i] == s[i..i + len][j - p];
  }

  /** An occurrence inside a copied stretch of text occurs in the copy too. */
  lemma CopyOccurs(s: string, p: nat, i: nat, len: nat, pat: string, at: nat)
    requires p + len <= |s| && i + len <= |s|
    requires s[p..p + len] == s[i..i + len]
    requires i <= at && at + |pat| <= i + len && OccursAt(s, pat, at)
    ensures OccursAt(s, pat, at - i + p)
  {
    var at' := at - i + p;
    forall k | 0 <= k < |pat| ensures s[at'..at' + |pat|][k] == pat[k] {
      CharCopied(s, p, i, len, at' + k);
      assert s[at..at + |pat|][k] == pat[k];
    }
  }

  /** Where the text of a match occurs again, it lies within one line too. */
  lemma CopyHasNoBreak(s: string, p: nat, i: nat, len: nat, from: nat)
    requires p + len <= |s| && i + len <= |s| && i <= from <= i + len
    requires s[p..p + len] == s[i..i + len]
    requires forall k :: from <= k < i + len ==> !IsLineBreak(s[k])
    ensures LineEnd(s, from - i + p) >= p + len
  {
    var e' := LineEnd(s, from - i + p);
    if e' < p + len {
      CharCopied(s, p, i, len, e');
    }
  }

  /** A key followed on its line by a marker and an ID character, copied to an earlier
      position, is followed there by the same marker and ID character. */
  lemma MarkerCopied(s: string, key: string, marker: string, i: nat, q: nat, p: nat)
    requires OccursAt(s, key, i) && i + |key| <= q
    requires MarkerAt(s, marker, q, LineEnd(s, i + |key|))
    requires p <= i && p + (LineEnd(s, i + |key|) - i) <= |s|
    requires s[p..p + (LineEnd(s, i + |key|) - i)] == s[i..LineEnd(s, i + |key|)]
    ensures OccursAt(s, key, p)
    ensures LastMarker(s, marker, p + |key|, LineEnd(s, p + |key|)).Some?
  {
    var a := i + |key|;
    var len := LineEnd(s, a) - i;
    assert OccursAt(s, key, p) by {
      CopyOccurs(s, p, i, len, key, i);
    }
    var q' := MarkerAtCopy(s, marker, i, a, q, p, len);
    assert a - i + p == p + |key|;
    LastMarkerFinds(s, marker, p + |key|, LineEnd(s, p + |key|), q');
  }

  /** A marker followed by an ID character on the line from `a`, copied to an earlier position,
      is a marker on the copied line too. */
  lemma MarkerAtCopy(s: string, marker: string, i: nat, a: nat, q: nat, p: nat, len: nat) returns (q': nat)
    requires p <= i <= a <= q && a <= |s| && p + len <= |s| && i + len <= |s|
    requires len == LineEnd(s, a) - i
    requires s[p..p + len] == s[i..i + len]
    requires MarkerAt(s, marker, q, LineEnd(s, a))
    ensures q' == q - i + p && MarkerAt(s, marker, q', LineEnd(s, a - i + p))
  {
    q' := q - i + p;
    assert q' + |marker| < LineEnd(s, a - i + p) by {
      CopyHasNoBreak(s, p, i, len, a);
    }
    assert OccursAt(s, marker, q') by {
      CopyOccurs(s, p, i, len, marker, q);
    }
    assert IsIdChar(s[q' + |marker|]) by {
      CharCopied(s, p, i, len, q' + |marker|);
    }
  }

  /** The search for the last marker finds one whenever there is one. */
  lemma LastMarkerFinds(s: string, marker: string, from: nat, lineEnd: nat, q: nat)
    requires from <= q && MarkerAt(s, marker, q, lineEnd)
    ensures LastMarker(s, marker, from, lineEnd).Some?
  {
  }

  lemma UrlMatchWhen(s: string, key: string, marker: string, i: nat)
    requires OccursAt(s, key, i)
    requires LastMarker(s, marker, i + |key|, LineEnd(s, i + |key|)).Some?
    ensures UrlMatchAt(s, key, marker, i).Some?
  {
  }

  /** A URL match of the same text starts at any earlier copy of it. */
  lemma UrlMatchCopied(s: string, key: string, marker: string, m: Match, p: nat)
    requires UrlMatchAt(s, key, marker, m.start) == Some(m)
    requires p < m.start && OccursAt(s, s[m.start..m.end], p)
    ensures UrlMatchAt(s, key, marker, p).Some?
  {
    var i := m.start;
    var a := i + |key|;
    var q := LastMarker(s, marker, a, LineEnd(s, a)).value;
    MarkerCopied(s, key, marker, i, q, p);
    UrlMatchWhen(s, key, marker, p);
  }

  /** A dirty-ID match of the same text starts at any earlier copy of it. */
  lemma DirtyMatchCopied(s: string, key: string, m: Match, p: nat)
    requires DirtyMatchAt(s, key, m.start) == Some(m)
    requires p < m.start && OccursAt(s, s[m.start..m.end], p)
    ensures DirtyMatchAt(s, key, p).Some?
  {
    var i := m.start;
    var a := i + |key|;
    var r := IdRunEnd(s, a);
    var len := m.end - i;
    CopyOccurs(s, p, i, len, key, i);
    var a' := p + |key|;
    var r' := r - i + p;
    CharCopied(s, p, i, len, r');
    forall k | a' <= k < r' ensures IsIdChar(s[k]) {
      CharCopied(s, p, i, len, k);
    }
    IdRunFrom(s, a', r');
  }

  /** The ID run from `a` ends at `r` when every character before `r` is an ID character and the
      one at `r` is not. */
  lemma {:induction false} IdRunFrom(s: string, a: nat, r: nat)
    requires a <= r < |s|
    requires forall k :: a <= k < r ==> IsIdChar(s[k])
    requires !IsIdChar(s[r])
    ensures IdRunEnd(s, a) == r
    decreases r - a
  {
    if a < r {
      IdRunFrom(s, a + 1, r);
    }
  }

  /** A match of the same rule starts wherever its matched text occurs again, so the text of the
      leftmost match occurs nowhere before it. */
  lemma MatchTextFirstAt(s: string, rule: Rule, m: Match, p: nat)
    requires MatchAt(s, rule, m.start) == Some(m)
    requires p < m.start && OccursAt(s, s[m.start..m.end], p)
    ensures MatchAt(s, rule, p).Some?
  {
    match rule
    case UrlRule(key, marker) => UrlMatchCopied(s, key, marker, m, p);
    case DirtyRule(key) => DirtyMatchCopied(s, key, m, p);
  }

  /** A rewrite replaces exactly the leftmost match, from the key to the end of its line, by
      `key` followed by the captured ID; everything before and after it is kept. */
  lemma RewriteShape(s: string, rule: Rule)
    requires Rewrite(s, rule).Some?
    ensures var m := FirstMatch(s, rule, 0).value;
      Rewrite(s, rule).value == s[..m.start] + rule.key + m.id + s[m.end..]
  {
    var m := FirstMatch(s, rule, 0).value;
    var fullLine := s[m.start..m.end];
    var rep := rule.key + m.id;
    assert Rewrite(s, rule).value == ReplaceFirst(s, fullLine, rep) by {
      RewriteReplacesMatch(s, rule);
    }
    assert IndexOf(s, fullLine) == Some(m.start) by {
      MatchTextFoundFirst(s, rule);
    }
    assert ReplaceFirst(s, fullLine, rep) == s[..m.start] + rep + s[m.end..] by {
      assert m.start + |fullLine| == m.end;
    }
    MiddleAssoc(s[..m.start], rule.key, m.id, s[m.end..]);
  }

  /** A rewrite that fires replaces the first occurrence of the leftmost match's text. */
  lemma RewriteReplacesMatch(s: string, rule: Rule)
    requires Rewrite(s, rule).Some?
    ensures FirstMatch(s, rule, 0).Some?
    ensures var m := FirstMatch(s, rule, 0).value;
      Rewrite(s, rule).value == ReplaceFirst(s, s[m.start..m.end], rule.key + m.id)
  {
  }

  /** `indexOf` finds the text of the leftmost match where the match starts. */
  lemma MatchTextFoundFirst(s: string, rule: Rule)
    requires FirstMatch(s, rule, 0).Some?
    ensures var m := FirstMatch(s, rule, 0).value;
      IndexOf(s, s[m.start..m.end]) == Some(m.start)
  {
    var m := FirstMatch(s, rule, 0).value;
    var fullLine := s[m.start..m.end];
    var found := IndexOf(s, fullLine);
    assert found.Some? && found.value <= m.start by {
      assert OccursAt(s, fullLine, m.start);
    }
    if found.value < m.start {
      assert MatchAt(s, rule, found.value).Some? by {
        MatchTextFirstAt(s, rule, m, found.value);
      }
      assert false;
    }
  }

  /** A rewrite always shortens the content: the matched text is longer than its replacement. */
  lemma RewriteShrinks(s: string, rule: Rule)
    requires rule.UrlRule? ==> rule.marker != ""
    requires Rewrite(s, rule).Some?
    ensures |Rewrite(s, rule).value| < |s|
  {
    RewriteShape(s, rule);
    var m := FirstMatch(s, rule, 0).value;
    match rule
    case UrlRule(key, marker) => UrlMatchLonger(s, key, marker, m.start);
    case DirtyRule(key) =>
  }

  /** The text a URL match covers is longer than the key and the ID it is rewritten to. */
  lemma UrlMatchLonger(s: string, key: string, marker: string, i: nat)
    requires marker != ""
    requires UrlMatchAt(s, key, marker, i).Some?
    ensures var m := UrlMatchAt(s, key, marker, i).value;
      |key| + |m.id| < m.end - i
  {
    var a := i + |key|;
    var e := LineEnd(s, a);
    var q := LastMarker(s, marker, a, e).value;
    var b := q + |marker|;
    var run := IdRunEnd(s, b);
    assert run <= e;
  }

  /** The file is written exactly when the content changes: every firing rewrite shortens it. */
  lemma WrittenIffChanged(s: string)
    ensures AnyRewrite(s) <==> Fixed(s) != s
  {
    var s1 := Step(s, DriveUrlRule);
    var s2 := Step(s1, SheetUrlRule);
    if Rewrite(s, DriveUrlRule).Some? { RewriteShrinks(s, DriveUrlRule); }
    if Rewrite(s1, SheetUrlRule).Some? { RewriteShrinks(s1, SheetUrlRule); }
    if Rewrite(s2, SheetDirtyRule).Some? { RewriteShrinks(s2, SheetDirtyRule); }
  }

  /** A pasted URL line becomes `KEY<id>`, where `<id>` is the whole run of ID characters after
      the last marker (`/folders/` or `/d/`) on that line. */
  lemma UrlRewriteExtractsId(s: string, key: string, marker: string)
    requires Rewrite(s, UrlRule(key, marker)).Some?
    ensures var m := FirstMatch(s, UrlRule(key, marker), 0).value;
      exists q :: m.start + |key| <= q && MarkerAt(s, marker, q, m.end)
        && (forall q' :: q < q' ==> !MarkerAt(s, marker, q', m.end))
        && m.id == s[q + |marker|..IdRunEnd(s, q + |marker|)]
        && Rewrite(s, UrlRule(key, marker)).value == s[..m.start] + key + m.id + s[m.end..]
  {
    RewriteShape(s, UrlRule(key, marker));
    var m := FirstMatch(s, UrlRule(key, marker), 0).value;
    assert UrlMatchAt(s, key, marker, m.start) == Some(m) by {
      assert MatchAt(s, UrlRule(key, marker), m.start) == Some(m);
    }
    var q := UrlMatchMarker(s, key, marker, m);
  }

  /** A URL match ends where its line ends, and its ID follows the last marker on that line. */
  lemma UrlMatchMarker(s: string, key: string, marker: string, m: Match) returns (q: nat)
    requires UrlMatchAt(s, key, marker, m.start) == Some(m)
    ensures m.start + |key| <= q && MarkerAt(s, marker, q, m.end)
    ensures forall q' :: q < q' ==> !MarkerAt(s, marker, q', m.end)
    ensures m.id == s[q + |marker|..IdRunEnd(s, q + |marker|)]
  {
    var a := m.start + |key|;
    q := LastMarker(s, marker, a, LineEnd(s, a)).value;
  }

  /** A URL rule never fires on a text without its marker. */
  lemma NoMarkerNoUrlRewrite(s: string, key: string, marker: string)
    requires !Contains(s, marker)
    ensures Rewrite(s, UrlRule(key, marker)).None?
  {
    assert FirstMatch(s, UrlRule(key, marker), 0).None?;
  }

  /** Every `key` in `s` is followed by an ID that runs to the end of its line. */
  ghost predicate BareIdsAfter(s: string, key: string)
  {
    forall i :: OccursAt(s, key, i) ==>
      var r := IdRunEnd(s, i + |key|);
      r == |s| || IsLineBreak(s[r])
  }

  /** The dirty-ID rule never fires when every key is followed by an ID that runs to the end of
      its line. */
  lemma BareIdsNoDirtyRewrite(s: string, key: string)
    requires BareIdsAfter(s, key)
    ensures Rewrite(s, DirtyRule(key)).None?
  {
    assert FirstMatch(s, DirtyRule(key), 0).None?;
  }

  /** A text with no `/folders/`, no `/d/`, and every `GOOGLE_SHEET_ID=` followed by a bare ID
      up to the end of its line is left as it is, and not written. */
  lemma CleanContentUntouched(s: string)
    requires !Contains(s, FoldersMarker) && !Contains(s, DocMarker)
    requires BareIdsAfter(s, SheetKey)
    ensures !AnyRewrite(s) && Fixed(s) == s
  {
    assert Rewrite(s, SheetDirtyRule).None? by {
      BareIdsNoDirtyRewrite(s, SheetKey);
    }
    NoRewriteUntouched(s);
  }

  /** Without either marker, and with a dirty-ID rewrite that does not fire, nothing fires. */
  lemma NoRewriteUntouched(s: string)
    requires !Contains(s, FoldersMarker) && !Contains(s, DocMarker)
    requires Rewrite(s, SheetDirtyRule).None?
    ensures !AnyRewrite(s) && Fixed(s) == s
  {
    assert Rewrite(s, DriveUrlRule).None? by {
      NoMarkerNoUrlRewrite(s, DriveKey, FoldersMarker);
    }
    assert Rewrite(s, SheetUrlRule).None? by {
      NoMarkerNoUrlRewrite(s, SheetKey, DocMarker);
    }
  }

  // ---------------------------------------------------------------------------
  // The script

  /** The `.env` file on disk. */
  class EnvFile {
    var content: string

    constructor (content: string)
      ensures this.content == content
    {
      this.content := content;
    }
  }

  /** The script: apply the three rewrites in turn, tracking `modified`, and write the file only
      when one of them fired. */
  method FixEnvFile(file: EnvFile) returns (modified: bool)
    modifies file
    ensures modified <==> AnyRewrite(old(file.content))
    ensures file.content == if modified then Fixed(old(file.content)) else old(file.content)
  {
    var envContent := file.content;
    modified := false;
    var drive := Rewrite(envContent, DriveUrlRule);
    if drive.Some? {
      envContent := drive.value;
      modified := true;
    }
    var sheet := Rewrite(envContent, SheetUrlRule);
    if sheet.Some? {
      envContent := sheet.value;
      modified := true;
    }
    var dirty := Rewrite(envContent, SheetDirtyRule);
    if dirty.Some? {
      envContent := dirty.value;
      modified := true;
    }
    if modified {
      file.content := envContent;
    }
  }
}
