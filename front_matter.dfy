/**
 * The front-matter header of a published message: a block that opens with
 * `---` and closes with a later `---` line, holding `key: value` lines.  The
 * two regular expressions the publish handler applies,
 * `^---\s*\n([\s\S]*?)\n\s*---` to read the header and
 * `^---\s*\n[\s\S]*?\n\s*---\s*\n` to cut it off, are matched here by hand
 * with the backtracking order of a JavaScript regular expression engine.
 */
module FrontMatter {
  import opened Common
  import opened Text

  /** Where a match of either pattern lies: the captured header text is
      `s[groupStart..groupEnd]` and the whole match is `s[..end]`. */
  datatype HeaderMatch = HeaderMatch(groupStart: nat, groupEnd: nat, end: nat)

  /** The last newline in `s[i..j]`. */
  function LastNewline(s: string, i: nat, j: nat): (r: Option<nat>)
    requires i <= j <= |s|
    ensures r.Some? ==> i <= r.value < j && s[r.value] == '\n'
    ensures r.Some? ==> forall k :: r.value < k < j ==> s[k] != '\n'
    ensures r.None? ==> forall k :: i <= k < j ==> s[k] != '\n'
    decreases j - i
  {
    if i == j then None
    else if s[j - 1] == '\n' then Some(j - 1)
    else LastNewline(s, i, j - 1)
  }

  /** The closing part of the pattern tried at `e`: `\n\s*---`, followed when
      `strict` by `\s*\n`.  The result is where the match ends.  A run of
      whitespace cannot contain a `-`, so `\s*---` matches only with the dashes
      right after the whole run; the greedy `\s*\n` ends after the last
      newline of the run that follows the dashes. */
  function Closing(s: string, e: nat, strict: bool): (r: Option<nat>)
    ensures r.Some? ==> e < |s| && s[e] == '\n' && OccursAt(s, "---", SkipWhitespace(s, e + 1))
    ensures r.Some? ==> r.value <= |s|
  {
    if e >= |s| || s[e] != '\n' then None
    else
      var q := SkipWhitespace(s, e + 1);
      if !OccursAt(s, "---", q) then None
      else if !strict then Some(q + 3)
      else
        match LastNewline(s, q + 3, SkipWhitespace(s, q + 3))
        case None => None
        case Some(k) => Some(k + 1)
  }

  /** The lazy `[\s\S]*?`: the first position at or after `g` where the
      closing part matches. */
  function FirstClose(s: string, g: nat, strict: bool): (r: Option<nat>)
    requires g <= |s|
    ensures r.Some? ==> g <= r.value < |s| && Closing(s, r.value, strict).Some?
    ensures r.Some? ==> forall e :: g <= e < r.value ==> Closing(s, e, strict).None?
    ensures r.None? ==> forall e :: g <= e ==> Closing(s, e, strict).None?
    decreases |s| - g
  {
    if g == |s| then None
    else if Closing(s, g, strict).Some? then Some(g)
    else FirstClose(s, g + 1, strict)
  }

  /** The greedy `---\s*\n`: the newline that ends it is tried from the last
      one in the whitespace run after the dashes down to the first, and the
      first that lets the rest match wins.  The result is where the captured
      text starts, just after that newline. */
  function OpenFrom(s: string, p: nat, strict: bool): (r: Option<nat>)
    requires p < |s|
    ensures r.Some? ==> 3 <= r.value <= p + 1 && s[r.value - 1] == '\n'
    ensures r.Some? ==> FirstClose(s, r.value, strict).Some?
    decreases p
  {
    if p < 3 then None
    else if s[p] == '\n' && FirstClose(s, p + 1, strict).Some? then Some(p + 1)
    else OpenFrom(s, p - 1, strict)
  }

  /** Both patterns are anchored at the start of the string. */
  function MatchHeader(s: string, strict: bool): (r: Option<HeaderMatch>)
    ensures r.Some? ==> StartsWith(s, "---")
    ensures r.Some? ==> 3 <= r.value.groupStart <= r.value.groupEnd < |s|
    ensures r.Some? ==> forall k :: 3 <= k < r.value.groupStart - 1 ==> IsWhitespace(s[k])
    ensures r.Some? ==> s[r.value.groupStart - 1] == '\n' && s[r.value.groupEnd] == '\n'
    ensures r.Some? ==> OccursAt(s, "---", SkipWhitespace(s, r.value.groupEnd + 1))
    ensures r.Some? ==> forall e :: r.value.groupStart <= e < r.value.groupEnd ==> Closing(s, e, strict).None?
    ensures r.Some? ==> r.value.end <= |s|
  {
    if !StartsWith(s, "---") then None
    else
      var w := SkipWhitespace(s, 3);
      if w == 3 then None
      else
        match OpenFrom(s, w - 1, strict)
        case None => None
        case Some(g) =>
          var e := FirstClose(s, g, strict).value;
          Some(HeaderMatch(g, e, Closing(s, e, strict).value))
  }

  // ------------------------------------------------------------ the lines

  function TrimAll(parts: seq<string>): (r: seq<string>)
    ensures |r| == |parts|
    ensures forall i :: 0 <= i < |parts| ==> r[i] == Trim(parts[i])
  {
    if parts == [] then []
    else
      var tail := TrimAll(parts[1..]);
      assert forall i :: 1 <= i < |parts| ==> ([Trim(parts[0])] + tail)[i] == tail[i - 1];
      [Trim(parts[0])] + tail
  }

  /** What one header line contributes: the trimmed text before the first
      `:` as key, and the trimmed rest, rejoined with `:`, as value.  A line
      without `:` or with an empty key contributes nothing, and so does the key
      `__proto__`, since assigning a string to it on a plain object is ignored. */
  function LineField(line: string): (r: Option<(string, string)>)
    ensures r.Some? ==> r.value.0 != "" && r.value.0 != "__proto__"
  {
    var parts := TrimAll(Split(line, ':'));
    if parts[0] == "" || parts[0] == "__proto__" || |parts| < 2 then None
    else Some((parts[0], Trim(Join(parts[1..], ":"))))
  }

  /** What each header line contributes, in order. */
  function Contributions(lines: seq<string>): (r: seq<Option<(string, string)>>)
    ensures |r| == |lines|
  {
    seq(|lines|, i requires 0 <= i < |lines| => LineField(lines[i]))
  }

  /** The contributions applied in order to an empty object. */
  function Fields(fields: seq<Option<(string, string)>>): map<string, string>
  {
    if fields == [] then map[] else Assign(Fields(fields[..|fields| - 1]), fields[|fields| - 1])
  }

  /** `result[key] = value` for a line that contributes a field. */
  function Assign(m: map<string, string>, field: Option<(string, string)>): map<string, string>
  {
    if field.None? then m else m[field.value.0 := field.value.1]
  }

  /** The captured header text, when the content opens with a header. */
  function HeaderText(trimmed: string): Option<string>
  {
    match MatchHeader(trimmed, false)
    case None => None
    case Some(m) => Some(trimmed[m.groupStart..m.groupEnd])
  }

  /** What `parseMarkdownHeader` returns. */
  function HeaderOf(content: string): map<string, string>
  {
    match HeaderText(Trim(content))
    case None => map[]
    case Some(h) => Fields(Contributions(Split(h, '\n')))
  }

  /** `parseMarkdownHeader`: the fields of the header block, or none. */
  method ParseMarkdownHeader(content: string) returns (result: map<string, string>)
    ensures result == HeaderOf(content)
    ensures HeaderText(Trim(content)).None? ==> result == map[]
  {
    var header := HeaderText(Trim(content));
    if header.None? {
      return map[];
    }
    result := AssignLines(Split(header.value, '\n'));
  }

  /** The loop over the header lines: each contributing line assigns its
      field, later lines overwriting earlier ones. */
  method AssignLines(lines: seq<string>) returns (result: map<string, string>)
    ensures result == Fields(Contributions(lines))
  {
    result := map[];
    ghost var fields := Contributions(lines);
    var i := 0;
    while i < |lines|
      invariant 0 <= i <= |lines|
      invariant result == Fields(fields[..i])
    {
      var field := LineField(lines[i]);
      assert field == fields[i];
      FieldsSnoc(fields, i);
      if field.Some? {
        result := result[field.value.0 := field.value.1];
      }
      i := i + 1;
    }
    assert fields[..|lines|] == fields;
  }

  /** One more header line applied. */
  lemma FieldsSnoc(fields: seq<Option<(string, string)>>, i: nat)
    requires i < |fields|
    ensures Fields(fields[..i + 1]) == Assign(Fields(fields[..i]), fields[i])
  {
    assert fields[..i + 1][..i] == fields[..i];
  }

  /** The content once the header block and the line break after it are cut
      off, trimmed. */
  function StripHeader(trimmed: string): (r: string)
    ensures |r| <= |trimmed|
    ensures Trim(r) == r
    ensures MatchHeader(trimmed, true).None? ==> r == Trim(trimmed)
  {
    match MatchHeader(trimmed, true)
    case None => TrimIdempotent(trimmed); Trim(trimmed)
    case Some(m) => TrimIdempotent(trimmed[m.end..]); Trim(trimmed[m.end..])
  }

  // ------------------------------------------------------------- properties

  /** Every field comes from some header line with that key. */
  lemma {:induction false} FieldFromLine(fields: seq<Option<(string, string)>>, k: string)
    requires k in Fields(fields)
    ensures exists i :: 0 <= i < |fields| && fields[i] == Some((k, Fields(fields)[k]))
  {
    var n := |fields| - 1;
    var before := fields[..n];
    if fields[n].Some? && fields[n].value.0 == k {
      assert fields[n] == Some((k, Fields(fields)[k]));
    } else {
      FieldFromLine(before, k);
      var i :| 0 <= i < |before| && before[i] == Some((k, Fields(before)[k]));
      assert fields[i] == before[i];
    }
  }

  /** The last line with a key decides its value: a later duplicate overwrites
      an earlier one. */
  lemma {:induction false} LastLineWins(fields: seq<Option<(string, string)>>, i: nat, k: string, v: string)
    requires i < |fields| && fields[i] == Some((k, v))
    requires forall j :: i < j < |fields| ==> fields[j].None? || fields[j].value.0 != k
    ensures k in Fields(fields) && Fields(fields)[k] == v
  {
    var n := |fields| - 1;
    if i < n {
      var before := fields[..n];
      assert forall j :: i < j < |before| ==> before[j] == fields[j];
      LastLineWins(before, i, k, v);
    }
  }

  /** The key a line contributes is the trimmed text before its first `:`,
      so it holds no `:` and has no whitespace at either end. */
  lemma LineKey(line: string)
    requires LineField(line).Some?
    ensures ':' in line
    ensures var k := LineField(line).value.0;
      && k == Trim(line[..IndexOf(line, ':')])
      && k != "" && ':' !in k
      && !IsWhitespace(k[0]) && !IsWhitespace(k[|k| - 1])
  {
    LineFieldParts(line);
    var c := IndexOf(line, ':');
    SplitFirst(line, ':');
    TrimKeepsOut(line[..c], ':');
  }

  /** The value a line contributes is what follows its first `:`, with its
      `:`-separated pieces trimmed and rejoined, and the whole trimmed. */
  lemma LineValue(line: string)
    requires LineField(line).Some?
    ensures ':' in line
    ensures LineField(line).value.1 == Trim(Join(TrimAll(Split(line[IndexOf(line, ':') + 1..], ':')), ":"))
  {
    LineFieldParts(line);
    var c := IndexOf(line, ':');
    SplitFirst(line, ':');
    TrimAllTail(line[..c], Split(line[c + 1..], ':'));
  }

  /** A contributing line is split at every `:`, and its field is the first
      piece trimmed and the other pieces trimmed and rejoined. */
  lemma LineFieldParts(line: string)
    requires LineField(line).Some?
    ensures ':' in line
    ensures var parts := Split(line, ':');
      LineField(line).value == (Trim(parts[0]), Trim(Join(TrimAll(parts)[1..], ":")))
  {
    assert |Split(line, ':')| >= 2;
  }

  /** A split with the separator present peels off the text before its first
      occurrence. */
  lemma SplitFirst(s: string, sep: char)
    requires sep in s
    ensures Split(s, sep) == [s[..IndexOf(s, sep)]] + Split(s[IndexOf(s, sep) + 1..], sep)
  {
    var k := IndexOf(s, sep);
    assert s == s[..k] + [sep] + s[k + 1..];
    SplitAfter(s[..k], s[k + 1..], sep);
  }

  /** Trimming every part commutes with dropping the first one. */
  lemma TrimAllTail(first: string, rest: seq<string>)
    ensures TrimAll([first] + rest)[1..] == TrimAll(rest)
  {
    var all := TrimAll([first] + rest);
    forall i | 0 <= i < |rest| ensures all[1..][i] == Trim(rest[i]) {
      assert ([first] + rest)[i + 1] == rest[i];
    }
  }

  /** Trimming adds no character. */
  lemma TrimKeepsOut(s: string, c: char)
    requires c !in s
    ensures c !in Trim(s)
  {
    var t := Trim(s);
    forall i | 0 <= i < |t| ensures t[i] != c {
      assert t[i] in s;
    }
  }

  /** A value without whitespace, such as a URL, is kept whole, colons
      included. */
  lemma ValueKeepsColons(line: string)
    requires LineField(line).Some?
    requires forall c :: c in line[IndexOf(line, ':') + 1..] ==> !IsWhitespace(c)
    ensures LineField(line).value.1 == line[IndexOf(line, ':') + 1..]
  {
    LineValue(line);
    RejoinWithoutWhitespace(line[IndexOf(line, ':') + 1..]);
  }

  /** Text without whitespace comes back whole from splitting on `:`,
      trimming the pieces, rejoining and trimming. */
  lemma RejoinWithoutWhitespace(rest: string)
    requires forall c :: c in rest ==> !IsWhitespace(c)
    ensures Trim(Join(TrimAll(Split(rest, ':')), ":")) == rest
  {
    var pieces := Split(rest, ':');
    forall i | 0 <= i < |pieces| ensures Trim(pieces[i]) == pieces[i] {
      forall c | c in pieces[i] ensures !IsWhitespace(c) {
        SplitMembers(rest, ':', i, c);
      }
      TrimNoWhitespace(pieces[i]);
    }
    assert TrimAll(pieces) == pieces;
    JoinSplit(rest, ':');
    assert Join(pieces, ":") == rest by { assert ":" == [':']; }
    TrimNoWhitespace(rest);
  }

  /** Every key of the header is non-empty, holds no `:` and has no
      whitespace at either end. */
  lemma HeaderKeys(content: string, k: string)
    requires k in HeaderOf(content)
    ensures k != "" && ':' !in k
    ensures !IsWhitespace(k[0]) && !IsWhitespace(k[|k| - 1])
  {
    var h := HeaderText(Trim(content)).value;
    var lines := Split(h, '\n');
    var fields := Contributions(lines);
    FieldFromLine(fields, k);
    var i :| 0 <= i < |fields| && fields[i] == Some((k, Fields(fields)[k]));
    assert fields[i] == LineField(lines[i]);
    LineKey(lines[i]);
  }

  /** Where the cutting pattern closes, the reading pattern closes too, and
      a line break follows the closing dashes. */
  lemma StrictClosing(s: string, e: nat)
    requires Closing(s, e, true).Some?
    ensures Closing(s, e, false).Some?
    ensures '\n' in s[Closing(s, e, false).value..]
  {
    var q := SkipWhitespace(s, e + 1);
    var k := LastNewline(s, q + 3, SkipWhitespace(s, q + 3)).value;
    assert s[q + 3..][k - (q + 3)] == '\n';
  }

  /** A header whose closing dashes are followed by no line break, as in a
      message that is only a header, is read but not cut: the content keeps
      the header text. */
  lemma HeaderKeptWithoutBreak(t: string)
    requires MatchHeader(t, false).Some?
    requires forall e :: Closing(t, e, false).Some? ==> '\n' !in t[Closing(t, e, false).value..]
    ensures HeaderText(t).Some?
    ensures MatchHeader(t, true).None?
    ensures StripHeader(t) == Trim(t)
  {
    forall e | 0 <= e < |t| ensures Closing(t, e, true).None? {
      if Closing(t, e, true).Some? {
        StrictClosing(t, e);
      }
    }
    if StartsWith(t, "---") {
      var w := SkipWhitespace(t, 3);
      if w > 3 {
        NoOpening(t, w - 1);
      }
    }
  }

  lemma {:induction false} NoOpening(s: string, p: nat)
    requires p < |s|
    requires forall e :: 0 <= e < |s| ==> Closing(s, e, true).None?
    ensures OpenFrom(s, p, true).None?
    decreases p
  {
    if p >= 3 {
      NoCloseFrom(s, p + 1, true);
      NoOpening(s, p - 1);
    }
  }

  lemma {:induction false} NoCloseFrom(s: string, g: nat, strict: bool)
    requires g <= |s|
    requires forall k :: g <= k < |s| ==> Closing(s, k, strict).None?
    ensures FirstClose(s, g, strict).None?
    decreases |s| - g
  {
    if g < |s| {
      NoCloseFrom(s, g + 1, strict);
    }
  }
}
