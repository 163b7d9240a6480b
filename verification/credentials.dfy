/**
 * The credential file `users.txt`: the record line `save_user` appends, the rule
 * `load_users` parses each line with, and the start-up load of the whole file.
 * The file itself is a string; opening, reading and appending are left to the caller.
 */
module Credentials {
  import opened Wrappers
  import opened Text

  /** The line `save_user(u, p)` appends: `u,p` and a newline. */
  function FormatLine(u: string, p: string): string
  {
    u + "," + p + "\n"
  }

  /**
   * `username, password = line.strip().split(',')`: a line parses exactly when its
   * stripped text holds one comma; otherwise the two-value unpacking raises ValueError.
   */
  function ParseLine(line: string): (r: Option<(string, string)>)
    ensures r.Some? <==> multiset(Strip(line))[','] == 1
    ensures r.Some? ==> ',' !in r.value.0 && ',' !in r.value.1
    ensures r.Some? ==> Strip(line) == r.value.0 + "," + r.value.1
  {
    var parts := SplitOn(Strip(line), ',');
    if |parts| == 2 then
      JoinSplitOn(Strip(line), ',');
      assert Join(parts, ",") == parts[0] + "," + Join(parts[1..], ",");
      Some((parts[0], parts[1]))
    else None
  }

  /** Index just past the first newline, or the whole length when there is none. */
  function LineEnd(s: string): (n: nat)
    ensures n <= |s|
    ensures s != [] ==> n > 0
    ensures forall i :: 0 <= i < n - 1 ==> s[i] != '\n'
    ensures n < |s| ==> s[n - 1] == '\n'
  {
    if s == [] then 0
    else if s[0] == '\n' then 1
    else 1 + LineEnd(s[1..])
  }

  /** The lines `for line in file` yields: each keeps its newline; the last may lack one. */
  function Lines(s: string): (r: seq<string>)
    decreases |s|
  {
    if s == [] then []
    else
      var n := LineEnd(s);
      [s[..n]] + Lines(s[n..])
  }

  /** The lines put back together. */
  function Concat(ls: seq<string>): string
  {
    if ls == [] then "" else ls[0] + Concat(ls[1..])
  }

  /** Reading lines loses nothing: together they are the file. */
  lemma {:induction false} LinesConcat(s: string)
    ensures Concat(Lines(s)) == s
    decreases |s|
  {
    if s != [] {
      var n := LineEnd(s);
      LinesConcat(s[n..]);
      assert s[..n] + s[n..] == s;
    }
  }

  /** Every line is non-empty, and every line but the last ends with the newline. */
  lemma {:induction false} LinesTerminated(s: string)
    ensures forall l <- Lines(s) :: l != []
    ensures forall i :: 0 <= i < |Lines(s)| - 1 ==> Lines(s)[i] != [] && Lines(s)[i][|Lines(s)[i]| - 1] == '\n'
    decreases |s|
  {
    if s != [] {
      var n := LineEnd(s);
      var rest := Lines(s[n..]);
      LinesTerminated(s[n..]);
      var ls := Lines(s);
      assert ls == [s[..n]] + rest;
      forall i | 0 <= i < |ls| - 1 ensures ls[i] != [] && ls[i][|ls[i]| - 1] == '\n' {
        if i > 0 { assert ls[i] == rest[i - 1]; }
      }
    }
  }

  /** Lines are read in order; a later record for the same name replaces the earlier one. None: a line fails to parse. */
  function LoadLines(lines: seq<string>): Option<map<string, string>>
    decreases |lines|
  {
    if lines == [] then Some(map[])
    else
      match LoadLines(lines[..|lines| - 1])
      case None => None
      case Some(m) =>
        match ParseLine(lines[|lines| - 1])
        case None => None
        case Some((u, p)) => Some(m[u := p])
  }

  /**
   * `load_users`: a missing file gives no users; a file with an unparsable line makes
   * the uncaught ValueError end start-up (None).
   */
  function Load(file: Option<string>): Option<map<string, string>>
  {
    match file
    case None => Some(map[])
    case Some(content) => LoadLines(Lines(content))
  }

  /** What `users.txt` holds: a missing file is created empty by the first append. */
  function FileText(file: Option<string>): string
  {
    if file.None? then "" else file.value
  }

  /** `load_users` as the loop it is: one parsed line at a time into the dictionary. */
  method LoadUsers(file: Option<string>) returns (users: Option<map<string, string>>)
    ensures users == Load(file)
  {
    if file.None? {
      return Some(map[]);
    }
    var lines := Lines(file.value);
    var m: map<string, string> := map[];
    var i := 0;
    while i < |lines|
      invariant 0 <= i <= |lines|
      invariant LoadLines(lines[..i]) == Some(m)
    {
      var parsed := ParseLine(lines[i]);
      LoadNext(lines, i, m);
      if parsed.None? {
        NoRecovery(lines, i + 1);
        return None;
      }
      m := m[parsed.value.0 := parsed.value.1];
      i := i + 1;
    }
    assert lines[..i] == lines;
    users := Some(m);
  }

  /** One more line: its record is added, or the load fails with it. */
  lemma LoadNext(lines: seq<string>, i: nat, m: map<string, string>)
    requires i < |lines| && LoadLines(lines[..i]) == Some(m)
    ensures LoadLines(lines[..i + 1]) ==
      match ParseLine(lines[i])
      case None => None
      case Some((u, p)) => Some(m[u := p])
  {
    assert lines[..i + 1][..i] == lines[..i];
  }

  /** Once a line fails, the whole load fails. */
  lemma {:induction false} NoRecovery(lines: seq<string>, k: nat)
    requires k <= |lines|
    requires LoadLines(lines[..k]) == None
    ensures LoadLines(lines) == None
    decreases |lines| - k
  {
    if k < |lines| {
      assert lines[..k + 1][..k] == lines[..k];
      NoRecovery(lines, k + 1);
    } else {
      assert lines[..k] == lines;
    }
  }

  // ---------------------------------------------------------------------------
  // The record format round trip

  /** What `strip()` leaves of a saved record: the name's leading and the password's trailing whitespace go. */
  lemma StripRecord(u: string, p: string)
    ensures Strip(FormatLine(u, p)) == TrimLeft(u) + "," + TrimRight(p)
  {
    var tail := "," + p + "\n";
    var a := TrimLeft(u) + ",";
    calc {
      TrimLeft(FormatLine(u, p));
      { assert FormatLine(u, p) == u + tail; }
      TrimLeft(u + tail);
      { TrimLeftConcat(u, tail); }
      TrimLeft(u) + tail;
      a + (p + "\n");
    }
    calc {
      TrimRight(a + (p + "\n"));
      { TrimRightConcat(a, p + "\n"); }
      a + TrimRight(p + "\n");
      { assert (p + "\n")[..|p|] == p; }
      a + TrimRight(p);
    }
  }

  /** Parsing a saved record: a comma anywhere fails it, otherwise only outer whitespace is lost. */
  lemma ParseFormatLine(u: string, p: string)
    ensures ParseLine(FormatLine(u, p)) ==
      if ',' in u || ',' in p then None else Some((TrimLeft(u), TrimRight(p)))
  {
    StripRecord(u, p);
    var a, b := TrimLeft(u), TrimRight(p);
    var s := Strip(FormatLine(u, p));
    assert s == a + [','] + b;
    if ',' in u || ',' in p {
      TrimLeftKeeps(u, ',');
      TrimRightKeeps(p, ',');
      assert multiset(s)[','] == multiset(a)[','] + 1 + multiset(b)[','];
      assert multiset(a)[','] > 0 || multiset(b)[','] > 0;
      assert |SplitOn(s, ',')| > 2;
    } else {
      TrimLeftKeeps(u, ',');
      TrimRightKeeps(p, ',');
      assert ',' !in a && ',' !in b;
      SplitOnAt(a, ',', b);
      SplitOnNone(b, ',');
      assert SplitOn(s, ',') == [a, b];
    }
  }

  /**
   * The round trip between `save_user` and `load_users`: a record reads back as the pair that
   * was saved exactly when neither part holds a comma, the name does not start with whitespace
   * and the password does not end with it.
   */
  lemma RecordRoundTrip(u: string, p: string)
    ensures ParseLine(FormatLine(u, p)) == Some((u, p)) <==>
      ',' !in u && ',' !in p && (u == [] || !IsSpace(u[0])) && (p == [] || !IsSpace(p[|p| - 1]))
  {
    ParseFormatLine(u, p);
    TrimLeftIdentity(u);
    TrimRightIdentity(p);
  }

  /** Records that come from `split()` tokens without a comma read back unchanged. */
  lemma WordRecordRoundTrip(u: string, p: string)
    requires IsWord(u) && IsWord(p)
    requires ',' !in u && ',' !in p
    ensures ParseLine(FormatLine(u, p)) == Some((u, p))
  {
    RecordRoundTrip(u, p);
  }

  // ---------------------------------------------------------------------------
  // Appending records to the file

  /** A file that ends at a line boundary; appending then starts a fresh line. */
  predicate EndsLine(file: string) {
    file == [] || file[|file| - 1] == '\n'
  }

  lemma {:induction false} LinesAppend(a: string, b: string)
    requires EndsLine(a)
    ensures Lines(a + b) == Lines(a) + Lines(b)
    decreases |a|
  {
    if a == [] {
      assert a + b == b;
    } else {
      var n := LineEnd(a);
      assert a[n - 1] == '\n';
      LineEndPrefix(a, b, n);
      assert (a + b)[..n] == a[..n];
      assert (a + b)[n..] == a[n..] + b;
      LinesAppend(a[n..], b);
    }
  }

  /** The first line of `a + b` is the first line of `a` when that line is newline-terminated. */
  lemma {:induction false} LineEndPrefix(a: string, b: string, n: nat)
    requires 0 < n <= |a| && a[n - 1] == '\n'
    requires forall i :: 0 <= i < n - 1 ==> a[i] != '\n'
    ensures LineEnd(a + b) == n
    decreases n
  {
    if n > 1 {
      assert (a + b)[1..] == a[1..] + b;
      LineEndPrefix(a[1..], b, n - 1);
    }
  }

  /** A record without a newline in it is read back as one line. */
  lemma RecordIsOneLine(u: string, p: string)
    requires '\n' !in u && '\n' !in p
    ensures Lines(FormatLine(u, p)) == [FormatLine(u, p)]
  {
    var l := FormatLine(u, p);
    assert l[..|l| - 1] == u + "," + p;
    LineEndPrefix(l, [], |l|);
    assert l + [] == l;
    assert l[|l|..] == [];
  }

  /**
   * The file stays in step with the users dictionary: when the file reloads to `users` and a
   * new record without comma or whitespace is appended, the file reloads to `users[u := p]`.
   */
  lemma AppendRecordReloads(file: string, users: map<string, string>, u: string, p: string)
    requires EndsLine(file) && LoadLines(Lines(file)) == Some(users)
    requires IsWord(u) && IsWord(p) && ',' !in u && ',' !in p
    ensures EndsLine(file + FormatLine(u, p))
    ensures LoadLines(Lines(file + FormatLine(u, p))) == Some(users[u := p])
  {
    var l := FormatLine(u, p);
    assert l[|l| - 1] == '\n';
    assert IsSpace('\n');
    LinesAppend(file, l);
    RecordIsOneLine(u, p);
    WordRecordRoundTrip(u, p);
    var ls := Lines(file) + [l];
    assert ls[..|ls| - 1] == Lines(file);
  }

  /**
   * The last line of a file that does not end with a newline absorbs the next appended
   * line: the two are read back as one.
   */
  lemma {:induction false} LinesAppendUnterminated(a: string, b: string)
    requires !EndsLine(a)
    requires b != [] && b[|b| - 1] == '\n' && forall i :: 0 <= i < |b| - 1 ==> b[i] != '\n'
    ensures Lines(a) != []
    ensures Lines(a + b) == Lines(a)[..|Lines(a)| - 1] + [Lines(a)[|Lines(a)| - 1] + b]
    decreases |a|
  {
    var n := LineEnd(a);
    if n < |a| {
      LineEndPrefix(a, b, n);
      assert (a + b)[..n] == a[..n];
      assert (a + b)[n..] == a[n..] + b;
      LinesAppendUnterminated(a[n..], b);
      var rest := Lines(a[n..]);
      assert Lines(a) == [a[..n]] + rest;
      assert Lines(a)[..|Lines(a)| - 1] == [a[..n]] + rest[..|rest| - 1];
    } else {
      var ab := a + b;
      assert forall i :: 0 <= i < |ab| - 1 ==> ab[i] != '\n' by {
        forall i | 0 <= i < |ab| - 1 ensures ab[i] != '\n' {
          if i >= |a| { assert ab[i] == b[i - |a|]; }
        }
      }
      LineEndPrefix(ab, [], |ab|);
      assert ab + [] == ab;
      assert ab[|ab|..] == [] && ab[..|ab|] == ab;
      assert a[n..] == [] && a[..n] == a;
    }
  }

  /** A successful load parsed the last line. */
  lemma LoadedLastLine(lines: seq<string>, users: map<string, string>)
    requires lines != [] && LoadLines(lines) == Some(users)
    ensures ParseLine(lines[|lines| - 1]).Some?
  {
  }

  /**
   * A file whose last line lacks its newline loads, but the next record `save_user` appends
   * is glued onto that line, which then holds two commas: every later start-up fails.
   */
  lemma UnterminatedFileBreaksOnAppend(file: string, users: map<string, string>, u: string, p: string)
    requires !EndsLine(file) && LoadLines(Lines(file)) == Some(users)
    requires '\n' !in u && '\n' !in p
    ensures LoadLines(Lines(file + FormatLine(u, p))) == None
  {
    var l := FormatLine(u, p);
    RecordHasOneNewline(u, p);
    LinesAppendUnterminated(file, l);
    var ls := Lines(file);
    var init, last := ls[..|ls| - 1], ls[|ls| - 1];
    assert Lines(file + l) == init + [last + l];
    LoadedLastLine(ls, users);
    assert l[|u|] == ',';
    MergedLineFails(last, l);
    LoadFailsAtLast(init, last + l);
  }

  lemma RecordHasOneNewline(u: string, p: string)
    requires '\n' !in u && '\n' !in p
    ensures var l := FormatLine(u, p); l[|l| - 1] == '\n' && forall i :: 0 <= i < |l| - 1 ==> l[i] != '\n'
  {
    var l := FormatLine(u, p);
    forall i | 0 <= i < |l| - 1 ensures l[i] != '\n' {
      assert l[i] in u + "," + p;
    }
  }

  /** A parsed line holds one comma; with another comma after it, it no longer parses. */
  lemma MergedLineFails(line: string, tail: string)
    requires ParseLine(line).Some? && ',' in tail
    ensures ParseLine(line + tail).None?
  {
    var merged := line + tail;
    TrimLeftKeeps(merged, ',');
    TrimRightKeeps(TrimLeft(merged), ',');
    TrimLeftKeeps(line, ',');
    TrimRightKeeps(TrimLeft(line), ',');
    assert multiset(merged) == multiset(line) + multiset(tail);
  }

  /** A last line that does not parse fails the load. */
  lemma LoadFailsAtLast(init: seq<string>, last: string)
    requires ParseLine(last).None?
    ensures LoadLines(init + [last]) == None
  {
    var ls := init + [last];
    assert ls[..|ls| - 1] == init;
  }

  /** A record whose name or password holds a comma makes every later start-up fail. */
  lemma CommaRecordBreaksLoad(file: string, u: string, p: string)
    requires EndsLine(file)
    requires '\n' !in u && '\n' !in p
    requires ',' in u || ',' in p
    ensures LoadLines(Lines(file + FormatLine(u, p))) == None
  {
    var l := FormatLine(u, p);
    LinesAppend(file, l);
    RecordIsOneLine(u, p);
    ParseFormatLine(u, p);
    var ls := Lines(file) + [l];
    assert ls[..|ls| - 1] == Lines(file);
  }
}
