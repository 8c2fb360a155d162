/** The `.env.local` loader that `src/db/seed.ts` and `src/db/test-connection.ts`
    each carry, identically: every line of the file is trimmed, blank and `#`
    lines are skipped, the rest split at the first `=`, and a variable is set
    only when the environment does not already hold a non-empty value for it.
    The process environment is a `map<string, string>`; reading the file is
    left to the caller. */
module EnvFile {
  import opened Wrappers
  import opened Seqs
  import opened Strings

  /** What one line of the file says. */
  datatype EnvLine = Skip | Assign(key: string, value: string)

  /** The body of the loop for one line. An assignment's key and value carry no
      surrounding white space, and the key holds no `=`. */
  function ParseLine(line: string): (e: EnvLine)
    ensures e.Assign? ==> IsTrimmed(e.key) && IsTrimmed(e.value) && NoChar(e.key, '=')
  {
    AssignmentIsClean(Trim(line));
    ParseTrimmed(Trim(line))
  }

  lemma AssignmentIsClean(t: string)
    ensures ParseTrimmed(t).Assign? ==>
      IsTrimmed(ParseTrimmed(t).key) && IsTrimmed(ParseTrimmed(t).value) && NoChar(ParseTrimmed(t).key, '=')
  {
    var idx := IndexOf(t, '=');
    if idx >= 0 {
      TrimKeepsNoChar(t[..idx], '=');
    }
  }

  /** The loop body once the line is trimmed. */
  function ParseTrimmed(trimmed: string): EnvLine {
    if |trimmed| == 0 || StartsWith(trimmed, "#") then Skip
    else
      var idx := IndexOf(trimmed, '=');
      if idx == -1 then Skip
      else Assign(Trim(trimmed[..idx]), Trim(trimmed[idx + 1..]))
  }

  lemma ParseTrimmedMeaning(t: string)
    ensures ParseTrimmed(t).Skip? <==> |t| == 0 || StartsWith(t, "#") || '=' !in t
    ensures ParseTrimmed(t).Assign? ==>
      exists i :: 0 <= i < |t| && t[i] == '=' && NoChar(t[..i], '=')
                  && ParseTrimmed(t).key == Trim(t[..i])
                  && ParseTrimmed(t).value == Trim(t[i + 1..])
  {
    if ParseTrimmed(t).Assign? {
      var i := IndexOf(t, '=');
      assert 0 <= i < |t| && t[i] == '=' && NoChar(t[..i], '=');
    }
  }

  /** A line is skipped iff, once trimmed, it is empty, a comment or has no `=`;
      otherwise the key is the trimmed text before the first `=` and the value
      the trimmed text after it, later `=` included. */
  lemma ParseLineMeaning(line: string)
    ensures ParseLine(line).Skip? <==>
      || |Trim(line)| == 0
      || StartsWith(Trim(line), "#")
      || '=' !in Trim(line)
    ensures ParseLine(line).Assign? ==>
      var t := Trim(line);
      exists i :: 0 <= i < |t| && t[i] == '=' && NoChar(t[..i], '=')
                  && ParseLine(line).key == Trim(t[..i])
                  && ParseLine(line).value == Trim(t[i + 1..])
  {
    ParseTrimmedMeaning(Trim(line));
  }

  /** `!process.env[key]`: an absent variable and an empty one are both unset. */
  predicate IsUnset(env: map<string, string>, key: string) {
    key !in env || env[key] == ""
  }

  /** The `if (!process.env[key])` assignment for one parsed line. */
  function Apply(env: map<string, string>, e: EnvLine): (r: map<string, string>)
    ensures forall k :: k in env ==> k in r
    ensures e.Skip? ==> r == env
    ensures e.Assign? ==> forall k :: k in r && k != e.key ==> k in env && r[k] == env[k]
    ensures forall k :: k in r ==> (k in env && r[k] == env[k]) || e == Assign(k, r[k])
  {
    match e
    case Skip => env
    case Assign(key, value) => if IsUnset(env, key) then env[key := value] else env
  }

  /** The parsed lines, one entry per line, in file order. */
  function ParseLines(lines: seq<string>): (es: seq<EnvLine>)
    ensures |es| == |lines|
    ensures forall j :: 0 <= j < |lines| ==> es[j] == ParseLine(lines[j])
  {
    seq(|lines|, j requires 0 <= j < |lines| => ParseLine(lines[j]))
  }

  /** The loop: the entries applied in file order. No variable is removed, and
      every final value is either the one the environment held or one that some
      entry assigns to that variable. */
  function ApplyAll(env: map<string, string>, es: seq<EnvLine>): (r: map<string, string>)
    ensures forall k :: k in env ==> k in r
    ensures forall k :: k in r ==> (k in env && r[k] == env[k]) || exists j :: 0 <= j < |es| && es[j] == Assign(k, r[k])
    decreases |es|
  {
    if |es| == 0 then env
    else
      var r := ApplyAll(Apply(env, es[0]), es[1..]);
      assert forall j :: 0 <= j < |es| - 1 ==> es[1..][j] == es[j + 1];
      r
  }

  /** Loading a file: its text split on "\n", each line parsed and applied in
      order. No variable is removed, one that already held a non-empty value
      keeps it, and every other final value is assigned by some line of the file. */
  function LoadEnv(env: map<string, string>, text: string): (r: map<string, string>)
    ensures forall k :: k in env ==> k in r
    ensures forall k :: k in env && !IsUnset(env, k) ==> r[k] == env[k]
    ensures forall k :: k in r ==>
              (k in env && r[k] == env[k])
              || exists line :: line in SplitOn(text, '\n') && ParseLine(line) == Assign(k, r[k])
    ensures forall k :: IsUnset(env, k) && FirstValue(ParseLines(SplitOn(text, '\n')), k).Some? ==>
              k in r && r[k] == FirstValue(ParseLines(SplitOn(text, '\n')), k).value
    ensures forall k :: IsUnset(env, k) && FirstValue(ParseLines(SplitOn(text, '\n')), k).None? ==> IsUnset(r, k)
  {
    LoadedValues(env, text);
    LoadedFirstValues(env, ParseLines(SplitOn(text, '\n')));
    ApplyAll(env, ParseLines(SplitOn(text, '\n')))
  }

  /** The value of the first entry that assigns `key` a non-empty value, if any. */
  function FirstValue(es: seq<EnvLine>, key: string): (v: Option<string>)
    ensures v.Some? ==> v.value != ""
  {
    if |es| == 0 then None
    else if es[0].Assign? && es[0].key == key && es[0].value != "" then Some(es[0].value)
    else FirstValue(es[1..], key)
  }

  /** `FirstValue` by position: line `i` of the file assigns `key` a non-empty
      value and no earlier line does. */
  lemma {:induction false} FirstValueAt(lines: seq<string>, key: string, i: nat)
    requires i < |lines| && ParseLine(lines[i]).Assign? && ParseLine(lines[i]).key == key
    requires ParseLine(lines[i]).value != ""
    requires forall j :: 0 <= j < i && ParseLine(lines[j]).Assign? && ParseLine(lines[j]).key == key ==>
               ParseLine(lines[j]).value == ""
    ensures FirstValue(ParseLines(lines), key) == Some(ParseLine(lines[i]).value)
  {
    FirstEntryValue(ParseLines(lines), key, i);
  }

  /** `FirstValue` by position over parsed entries. */
  lemma {:induction false} FirstEntryValue(es: seq<EnvLine>, key: string, i: nat)
    requires i < |es| && es[i].Assign? && es[i].key == key && es[i].value != ""
    requires forall j :: 0 <= j < i && es[j].Assign? && es[j].key == key ==> es[j].value == ""
    ensures FirstValue(es, key) == Some(es[i].value)
    decreases i
  {
    if i > 0 {
      assert forall j :: 0 <= j < |es| - 1 ==> es[1..][j] == es[j + 1];
      FirstEntryValue(es[1..], key, i - 1);
    }
  }

  /** An unset variable ends with the first non-empty value the entries give
      it, and stays unset when none gives it one. */
  lemma {:induction false} FirstValueApplied(env: map<string, string>, es: seq<EnvLine>, key: string)
    requires IsUnset(env, key)
    ensures FirstValue(es, key).Some? ==>
              key in ApplyAll(env, es) && ApplyAll(env, es)[key] == FirstValue(es, key).value
    ensures FirstValue(es, key).None? ==> IsUnset(ApplyAll(env, es), key)
    decreases |es|
  {
    if |es| > 0 {
      var next := Apply(env, es[0]);
      if es[0].Assign? && es[0].key == key && es[0].value != "" {
        NeverOverwritten(next, es[1..], key);
      } else {
        FirstValueApplied(next, es[1..], key);
      }
    }
  }

  lemma LoadedFirstValues(env: map<string, string>, es: seq<EnvLine>)
    ensures forall k :: IsUnset(env, k) && FirstValue(es, k).Some? ==>
              k in ApplyAll(env, es) && ApplyAll(env, es)[k] == FirstValue(es, k).value
    ensures forall k :: IsUnset(env, k) && FirstValue(es, k).None? ==> IsUnset(ApplyAll(env, es), k)
  {
    forall k | IsUnset(env, k)
      ensures FirstValue(es, k).Some? ==> k in ApplyAll(env, es) && ApplyAll(env, es)[k] == FirstValue(es, k).value
      ensures FirstValue(es, k).None? ==> IsUnset(ApplyAll(env, es), k)
    {
      FirstValueApplied(env, es, k);
    }
  }

  lemma LoadedValues(env: map<string, string>, text: string)
    ensures var r := ApplyAll(env, ParseLines(SplitOn(text, '\n')));
            && (forall k :: k in env ==> k in r && (!IsUnset(env, k) ==> r[k] == env[k]))
            && forall k :: k in r ==>
                 (k in env && r[k] == env[k])
                 || exists line :: line in SplitOn(text, '\n') && ParseLine(line) == Assign(k, r[k])
  {
    var lines := SplitOn(text, '\n');
    var es := ParseLines(lines);
    var r := ApplyAll(env, es);
    forall k | k in env && !IsUnset(env, k) ensures r[k] == env[k] {
      NeverOverwritten(env, es, k);
    }
    forall k | k in r && !(k in env && r[k] == env[k])
      ensures exists line :: line in lines && ParseLine(line) == Assign(k, r[k])
    {
      var j :| 0 <= j < |es| && es[j] == Assign(k, r[k]);
      assert lines[j] in lines && ParseLine(lines[j]) == Assign(k, r[k]);
    }
  }

  /** Blank lines, comments and lines without `=` change nothing. */
  lemma IgnoredLines(env: map<string, string>, line: string)
    requires |Trim(line)| == 0 || StartsWith(Trim(line), "#") || '=' !in Trim(line)
    ensures Apply(env, ParseLine(line)) == env
  {
  }

  /** A variable that already holds a non-empty value keeps it, whatever the lines say. */
  lemma {:induction false} NeverOverwritten(env: map<string, string>, es: seq<EnvLine>, key: string)
    requires !IsUnset(env, key)
    ensures key in ApplyAll(env, es) && ApplyAll(env, es)[key] == env[key]
    decreases |es|
  {
    if |es| > 0 {
      NeverOverwritten(Apply(env, es[0]), es[1..], key);
    }
  }

  /** An empty variable counts as unset and takes the line's value. */
  lemma EmptyIsOverwritten(env: map<string, string>, key: string, value: string)
    requires key in env && env[key] == ""
    ensures Apply(env, Assign(key, value))[key] == value
  {
  }

  /** The first line that gives `key` a non-empty value wins: earlier lines can
      at most set it to the empty string, and later ones leave it alone. */
  lemma {:induction false} FirstNonEmptyWins(env: map<string, string>, es: seq<EnvLine>, key: string, i: nat)
    requires IsUnset(env, key)
    requires i < |es| && es[i].Assign? && es[i].key == key && es[i].value != ""
    requires forall j :: 0 <= j < i && es[j].Assign? && es[j].key == key ==> es[j].value == ""
    ensures key in ApplyAll(env, es) && ApplyAll(env, es)[key] == es[i].value
    decreases i
  {
    var next := Apply(env, es[0]);
    if i == 0 {
      NeverOverwritten(next, es[1..], key);
    } else {
      FirstNonEmptyWins(next, es[1..], key, i - 1);
    }
  }

  lemma AssignmentLineTrimmed(key: string, value: string)
    requires IsTrimmed(key) && IsTrimmed(value)
    ensures IsTrimmed(key + "=" + value)
  {
    var line := key + "=" + value;
    if |key| > 0 { assert line[0] == key[0]; }
    if |value| > 0 { assert line[|line| - 1] == value[|value| - 1]; }
  }

  lemma AssignmentLineSplit(key: string, value: string)
    requires NoChar(key, '=')
    ensures var line := key + "=" + value;
            && IndexOf(line, '=') == |key|
            && line[..|key|] == key
            && line[|key| + 1..] == value
  {
    var line := key + "=" + value;
    assert line[|key|] == '=';
    assert forall j :: 0 <= j < |key| ==> line[j] == key[j];
    assert line[..|key|] == key;
    assert line[|key| + 1..] == value;
  }

  lemma AssignmentLineNotComment(key: string, value: string)
    requires !StartsWith(key, "#")
    ensures !StartsWith(key + "=" + value, "#")
  {
    var line := key + "=" + value;
    if |key| > 0 {
      assert line[..1] == key[..1];
    } else {
      assert line[0] == '=';
    }
  }

  /** Splitting at the first `=`: a line `key=value` with a trimmed key free of
      `=` and `#`-prefix and a trimmed value reads back as exactly that
      assignment; the value may itself contain `=`. */
  lemma AssignmentRoundTrip(key: string, value: string)
    requires IsTrimmed(key) && IsTrimmed(value)
    requires NoChar(key, '=') && !StartsWith(key, "#")
    ensures ParseLine(key + "=" + value) == Assign(key, value)
  {
    var line := key + "=" + value;
    AssignmentLineTrimmed(key, value);
    TrimOfTrimmed(line);
    assert ParseLine(line) == ParseTrimmed(line);
    AssignmentLineSplit(key, value);
    AssignmentLineNotComment(key, value);
    TrimOfTrimmed(key);
    TrimOfTrimmed(value);
    assert |line| > 0;
  }
}
