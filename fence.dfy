/** Extraction of the SQL from a language-model reply: the expression
    `text.match(/```sql\n([\s\S]*?)```/i)` followed by
    `match ? match[1].trim() : text.trim()`, with `text` defaulting to `''`
    when the reply carries no text. */
module SqlFence {
  import opened Wrappers
  import opened JsText

  /** Length of the opening fence "```sql\n". */
  const OpenLength: nat := 7

  /** Length of the closing fence "```". */
  const CloseLength: nat := 3

  /** One character of the `i` flag's comparison: `c` equals the ASCII
      lower-case letter `lower` or its upper-case form. */
  predicate SameLetterIgnoringCase(c: char, lower: char)
    requires 'a' <= lower <= 'z'
  {
    c == lower || c as int == lower as int - 32
  }

  /** "```sql\n" starts at offset `i` of `s`, the letters in any case. */
  predicate OpensAt(s: string, i: nat) {
    i + OpenLength <= |s| &&
    s[i] == '`' && s[i + 1] == '`' && s[i + 2] == '`' &&
    SameLetterIgnoringCase(s[i + 3], 's') &&
    SameLetterIgnoringCase(s[i + 4], 'q') &&
    SameLetterIgnoringCase(s[i + 5], 'l') &&
    s[i + 6] == '\n'
  }

  /** "```" starts at offset `j` of `s`. */
  predicate ClosesAt(s: string, j: nat) {
    j + CloseLength <= |s| && s[j] == '`' && s[j + 1] == '`' && s[j + 2] == '`'
  }

  /** "```" occurs somewhere in `s`. */
  ghost predicate HasCloseFence(s: string) {
    exists k: nat :: ClosesAt(s, k)
  }

  /** The regular expression matches `s[i..j + 3]` with its group being
      `s[i + 7..j]`, for some way of expanding `[\s\S]*?`. */
  predicate IsMatch(s: string, i: nat, j: nat) {
    OpensAt(s, i) && i + OpenLength <= j && ClosesAt(s, j)
  }

  /** The match a JavaScript engine reports: the leftmost start, and for that
      start the shortest expansion of the lazy `*?`. */
  ghost predicate IsReportedMatch(s: string, i: nat, j: nat) {
    IsMatch(s, i, j) &&
    forall i', j' :: IsMatch(s, i', j') ==> i < i' || (i == i' && j <= j')
  }

  /** The first opening fence at or after `from`. */
  function FirstOpen(s: string, from: nat): (r: Option<nat>)
    decreases |s| - from
    ensures r.Some? ==> from <= r.value && OpensAt(s, r.value)
    ensures r.Some? ==> forall k :: from <= k < r.value ==> !OpensAt(s, k)
    ensures r.None? ==> forall k :: from <= k ==> !OpensAt(s, k)
  {
    if from + OpenLength > |s| then None
    else if OpensAt(s, from) then Some(from)
    else FirstOpen(s, from + 1)
  }

  /** The first closing fence at or after `from`. */
  function FirstClose(s: string, from: nat): (r: Option<nat>)
    decreases |s| - from
    ensures r.Some? ==> from <= r.value && ClosesAt(s, r.value)
    ensures r.Some? ==> forall k :: from <= k < r.value ==> !ClosesAt(s, k)
    ensures r.None? ==> forall k :: from <= k ==> !ClosesAt(s, k)
  {
    if from + CloseLength > |s| then None
    else if ClosesAt(s, from) then Some(from)
    else FirstClose(s, from + 1)
  }

  /** The offsets of the reported match, if the regular expression matches
      at all: the first opening fence, provided some closing fence follows it. */
  function FindSqlBlock(s: string): (r: Option<(nat, nat)>)
    ensures r.Some? ==> IsReportedMatch(s, r.value.0, r.value.1)
    ensures r.None? ==> forall i, j :: !IsMatch(s, i, j)
  {
    match FirstOpen(s, 0)
    case None => None
    case Some(i) =>
      match FirstClose(s, i + OpenLength)
      case None => None
      case Some(j) => Some((i, j))
  }

  /** The SQL taken from a reply: the trimmed body of the first
      "```sql\n" ... "```" block, else the whole reply trimmed; a reply
      without text counts as the empty string. */
  function ExtractSql(reply: Option<string>): (r: string)
    ensures IsTrimmed(r)
    ensures reply.None? ==> r == ""
  {
    var text := reply.GetOr("");
    match FindSqlBlock(text)
    case Some((i, j)) => Trim(text[i + OpenLength..j])
    case None => Trim(text)
  }

  /** When the regular expression matches, the result is the trimmed body of
      the match it reports (the leftmost, shortest one). */
  lemma ExtractFromBlock(s: string, i: nat, j: nat)
    requires IsReportedMatch(s, i, j)
    ensures ExtractSql(Some(s)) == Trim(s[i + OpenLength..j])
  {
    var r := FindSqlBlock(s);
    assert r.Some?;
    assert r.value == (i, j) by {
      assert IsReportedMatch(s, r.value.0, r.value.1);
    }
  }

  /** When no fenced block matches, the result is the whole reply trimmed. */
  lemma ExtractWithoutBlock(s: string)
    requires forall i, j :: !IsMatch(s, i, j)
    ensures ExtractSql(Some(s)) == Trim(s)
  {
  }

  /** The body taken from a block never contains a closing fence: the lazy
      `*?` stops at the first one. */
  lemma BlockBodyHasNoFence(s: string, i: nat, j: nat)
    requires IsReportedMatch(s, i, j)
    ensures !HasCloseFence(s[i + OpenLength..j])
  {
    var body := s[i + OpenLength..j];
    forall k: nat ensures !ClosesAt(body, k) {
      if ClosesAt(body, k) {
        assert ClosesAt(s, i + OpenLength + k);
        assert IsMatch(s, i, i + OpenLength + k);
      }
    }
  }
}
