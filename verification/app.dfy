/**
 * app.py: the Flask webhook Alexa calls, the extraction of the public
 * tunnel URL from the ngrok API answer, and the rewrite of one variable in
 * the `.env` file.
 */
module App {
  import opened Wrappers
  import opened PyStr
  import opened PyJson
  import AlexaHandler

  // ---------------------------------------------------------------------
  // start_ngrok: the public URL
  // ---------------------------------------------------------------------

  /** The ngrok API answer names a first tunnel with a string URL. */
  predicate HasUsableTunnel(api: Json) {
    && api.JObject?
    && "tunnels" in api.fields
    && api.fields["tunnels"].JArray?
    && api.fields["tunnels"].items != []
    && api.fields["tunnels"].items[0].JObject?
    && "public_url" in api.fields["tunnels"].items[0].fields
    && api.fields["tunnels"].items[0].fields["public_url"].JString?
  }

  /** The URL extraction of `start_ngrok` on the decoded API answer,
      evaluated as Python does; every exception is caught and gives None. */
  function TunnelUrl(api: Json): Option<string> {
    if !Truthy(api) then None
    else
      match In("tunnels", api)
      case Raise(_) => None
      case Ok(present) =>
        if !present then None
        else
          match Subscript(api, "tunnels")
          case Raise(_) => None
          case Ok(tunnels) =>
            if !Truthy(tunnels) then None
            else
              match SubscriptZero(tunnels)
              case Raise(_) => None
              case Ok(first) =>
                match Subscript(first, "public_url")
                case Ok(JString(url)) => Some(url + "/alexa")
                case _ => None // KeyError, TypeError, or a `+` on a non-string
  }

  /** A URL comes out exactly when the first tunnel carries a string
      `public_url`, and it is that URL with "/alexa" appended; a missing or
      empty `tunnels` gives none. */
  lemma TunnelUrlExtracted(api: Json)
    ensures TunnelUrl(api).Some? <==> HasUsableTunnel(api)
    ensures HasUsableTunnel(api) ==>
      TunnelUrl(api) == Some(api.fields["tunnels"].items[0].fields["public_url"].s + "/alexa")
    ensures api.JObject? && ("tunnels" !in api.fields || !Truthy(api.fields["tunnels"])) ==> TunnelUrl(api).None?
  {
  }

  // ---------------------------------------------------------------------
  // update_env_variable
  // ---------------------------------------------------------------------

  /** What Python reads from a file opened in text mode: universal
      newlines turn each "\r\n", and each "\r" alone, into "\n". */
  function UniversalNewlines(text: string): string
    decreases |text|
  {
    if text == [] then []
    else if text[0] == '\r' then
      "\n" + UniversalNewlines(if |text| > 1 && text[1] == '\n' then text[2..] else text[1..])
    else [text[0]] + UniversalNewlines(text[1..])
  }

  /** No "\r" is left in what is read. */
  lemma {:induction false} NewlinesDropReturns(text: string)
    ensures '\r' !in UniversalNewlines(text)
    decreases |text|
  {
    if text != [] {
      var rest := if text[0] == '\r' && |text| > 1 && text[1] == '\n' then text[2..] else text[1..];
      NewlinesDropReturns(rest);
      assert text[0] != '\r' ==> rest == text[1..];
    }
  }

  /** Text without "\r" before the rest is read unchanged. */
  lemma {:induction false} NewlinesAfter(a: string, rest: string)
    requires '\r' !in a
    ensures UniversalNewlines(a + rest) == a + UniversalNewlines(rest)
    decreases |a|
  {
    if a != [] {
      var s := a + rest;
      assert s[0] == a[0] && a[0] != '\r' && s[1..] == a[1..] + rest;
      assert UniversalNewlines(s) == [a[0]] + UniversalNewlines(a[1..] + rest);
      NewlinesAfter(a[1..], rest);
      assert a == [a[0]] + a[1..];
    } else {
      assert a + rest == rest;
    }
  }

  /** Text without "\r" is read unchanged. */
  lemma NewlinesKeepPlainText(text: string)
    requires '\r' !in text
    ensures UniversalNewlines(text) == text
  {
    NewlinesAfter(text, []);
    assert text + [] == text;
  }

  /** A text that ends in a line break, "\n" or "\r", is read as one that
      ends in "\n". */
  lemma {:induction false} NewlinesKeepEnd(text: string)
    requires text != [] && (text[|text| - 1] == '\n' || text[|text| - 1] == '\r')
    ensures var t := UniversalNewlines(text); t != [] && t[|t| - 1] == '\n'
    decreases |text|
  {
    var rest := if text[0] == '\r' && |text| > 1 && text[1] == '\n' then text[2..] else text[1..];
    if rest != [] {
      assert rest[|rest| - 1] == text[|text| - 1];
      NewlinesKeepEnd(rest);
    }
  }

  /** The length of the first line of a text as Python's line iteration
      yields it once newlines are translated: up to and including the first
      "\n", or the whole text when it holds none. */
  function LineLength(text: string): (k: nat)
    requires text != []
    ensures 0 < k <= |text|
    ensures '\n' !in text[..k - 1]
    ensures text[k - 1] == '\n' || k == |text|
    decreases |text|
  {
    if text[0] == '\n' || |text| == 1 then 1
    else
      var k := 1 + LineLength(text[1..]);
      assert text[..k - 1] == [text[0]] + text[1..][..k - 2];
      k
  }

  /** The split of `for line in f` on translated text: the lines, each
      keeping its "\n"; the last one has none when the text does not end in
      one. */
  function ReadLines(text: string): seq<string>
    decreases |text|
  {
    if text == [] then []
    else
      var k := LineLength(text);
      [text[..k]] + ReadLines(text[k..])
  }

  /** `f.writelines(lines)`: the lines written one after the other. */
  function Concat(lines: seq<string>): string
    decreases |lines|
  {
    if lines == [] then [] else lines[0] + Concat(lines[1..])
  }

  /** A line as read from a file that goes on after it: one "\n", at its
      end. */
  predicate Terminated(line: string) {
    |line| > 0 && line[|line| - 1] == '\n' && '\n' !in line[..|line| - 1]
  }

  /** The first line read, and the lines read after it. */
  lemma ReadLinesFirst(text: string)
    requires text != []
    ensures var lines := ReadLines(text);
      lines != [] && lines[0] == text[..LineLength(text)] && lines[1..] == ReadLines(text[LineLength(text)..])
  {
  }

  /** Writing lines writes the first, then the others. */
  lemma ConcatFirst(lines: seq<string>)
    requires lines != []
    ensures Concat(lines) == lines[0] + Concat(lines[1..])
  {
  }

  /** Writing back the lines read gives the text again. */
  lemma {:induction false} ConcatReadLines(text: string)
    ensures Concat(ReadLines(text)) == text
    decreases |text|
  {
    if text != [] {
      var k := LineLength(text);
      var first, rest := text[..k], text[k..];
      var lines := ReadLines(text);
      ReadLinesFirst(text);
      ConcatFirst(lines);
      assert Concat(lines) == first + Concat(ReadLines(rest));
      ConcatReadLines(rest);
      assert first + rest == text;
    }
  }

  /** A text that is empty or ends in "\n" reads as terminated lines only. */
  lemma {:induction false} ReadLinesTerminated(text: string)
    requires text == [] || text[|text| - 1] == '\n'
    ensures forall i :: 0 <= i < |ReadLines(text)| ==> Terminated(ReadLines(text)[i])
    decreases |text|
  {
    if text != [] {
      var k := LineLength(text);
      assert text[..k][..k - 1] == text[..k - 1];
      ReadLinesTerminated(text[k..]);
      var lines := ReadLines(text);
      forall i | 0 <= i < |lines|
        ensures Terminated(lines[i])
      {
        if i > 0 {
          assert lines[i] == ReadLines(text[k..])[i - 1];
        }
      }
    }
  }

  /** A line with no "\n" before its end is read whole when a "\n" ends it
      or nothing follows it. */
  lemma {:induction false} LineLengthOfLine(line: string, rest: string)
    requires |line| > 0 && '\n' !in line[..|line| - 1]
    requires line[|line| - 1] == '\n' || rest == []
    ensures LineLength(line + rest) == |line|
    decreases |line|
  {
    var t := line + rest;
    if |line| > 1 {
      assert line[0] in line[..|line| - 1];
      assert line[1..][..|line| - 2] == line[1..|line| - 1];
      LineLengthOfLine(line[1..], rest);
      assert t[1..] == line[1..] + rest;
    }
  }

  /** Terminated lines written out are read back as the same lines. */
  lemma {:induction false} ReadConcat(lines: seq<string>)
    requires forall i :: 0 <= i < |lines| ==> Terminated(lines[i])
    ensures ReadLines(Concat(lines)) == lines
    decreases |lines|
  {
    if lines != [] {
      var t := Concat(lines);
      var first := lines[0];
      LineLengthOfLine(first, Concat(lines[1..]));
      assert t[..|first|] == first && t[|first|..] == Concat(lines[1..]);
      ReadConcat(lines[1..]);
      assert lines == [first] + lines[1..];
    }
  }

  /** Terminated lines written out give a text that ends in "\n". */
  lemma {:induction false} ConcatEndsInNewline(lines: seq<string>)
    requires lines != [] && forall i :: 0 <= i < |lines| ==> Terminated(lines[i])
    ensures Concat(lines) != [] && Concat(lines)[|Concat(lines)| - 1] == '\n'
    decreases |lines|
  {
    if |lines| > 1 {
      ConcatEndsInNewline(lines[1..]);
    } else {
      assert Concat(lines) == lines[0] + [];
    }
  }

  /** The line that sets `key` to `value`. */
  function EnvEntry(key: string, value: string): string {
    key + "=" + value + "\n"
  }

  /** The line sets `key`: it starts with the key and "=". */
  predicate SetsKey(line: string, key: string) {
    StartsWith(line, key + "=")
  }

  /** Some line sets `key`. */
  predicate HasKey(lines: seq<string>, key: string) {
    exists i :: 0 <= i < |lines| && SetsKey(lines[i], key)
  }

  /** The lines written back: each line setting `key` becomes the new entry,
      the others are kept in place, and the entry is appended when no line
      set the key. */
  function EnvUpdated(lines: seq<string>, key: string, value: string): (r: seq<string>)
    ensures |r| == |lines| + (if HasKey(lines, key) then 0 else 1)
  {
    seq(|lines|, i requires 0 <= i < |lines| => if SetsKey(lines[i], key) then EnvEntry(key, value) else lines[i])
    + (if HasKey(lines, key) then [] else [EnvEntry(key, value)])
  }

  /** `for line in f` on a file holding `text`. */
  function FileLines(text: string): seq<string> {
    ReadLines(UniversalNewlines(text))
  }

  /** The text `update_env_variable` writes to a `.env` holding `text`. */
  function EnvFileUpdated(text: string, key: string, value: string): string {
    Concat(EnvUpdated(FileLines(text), key, value))
  }

  /** `update_env_variable` on the text of `.env` (None when the file
      cannot be read): the text written back, None when nothing is
      written. */
  method UpdateEnvVariable(file: Option<string>, key: string, value: string)
    returns (written: Option<string>)
    ensures written == if file.None? then None else Some(EnvFileUpdated(file.value, key, value))
  {
    if file.None? {
      return None;
    }
    var source := FileLines(file.value);
    var lines: seq<string> := [];
    var keyFound := false;
    for i := 0 to |source|
      invariant |lines| == i
      invariant forall k :: 0 <= k < i ==>
        lines[k] == if SetsKey(source[k], key) then EnvEntry(key, value) else source[k]
      invariant keyFound <==> exists k :: 0 <= k < i && SetsKey(source[k], key)
    {
      if SetsKey(source[i], key) {
        lines := lines + [EnvEntry(key, value)];
        keyFound := true;
      } else {
        lines := lines + [source[i]];
      }
    }
    assert lines == seq(|source|, i requires 0 <= i < |source| =>
      if SetsKey(source[i], key) then EnvEntry(key, value) else source[i]);
    assert keyFound == HasKey(source, key);
    if !keyFound {
      lines := lines + [EnvEntry(key, value)];
    }
    assert lines == EnvUpdated(source, key, value);
    written := Some(Concat(lines));
  }

  /** Lines that do not set the key keep their text and their place; the
      new entry is the only line that sets the key, and it is there. */
  lemma EnvUpdateKeepsOtherLines(lines: seq<string>, key: string, value: string)
    ensures var r := EnvUpdated(lines, key, value);
      && (forall i :: 0 <= i < |lines| && !SetsKey(lines[i], key) ==> r[i] == lines[i])
      && (forall i :: 0 <= i < |r| && SetsKey(r[i], key) ==> r[i] == EnvEntry(key, value))
      && HasKey(r, key)
  {
    var r := EnvUpdated(lines, key, value);
    assert SetsKey(EnvEntry(key, value), key) by {
      assert EnvEntry(key, value)[..|key + "="|] == key + "=";
    }
    if HasKey(lines, key) {
      var i :| 0 <= i < |lines| && SetsKey(lines[i], key);
      assert r[i] == EnvEntry(key, value);
    } else {
      assert r[|lines|] == EnvEntry(key, value);
    }
  }

  /** Setting the key again overwrites the first value in place: the
      second update gives what a single update with the new value gives.
      In particular, repeating an update changes nothing. */
  lemma EnvUpdateOverwrites(lines: seq<string>, key: string, v1: string, v2: string)
    ensures EnvUpdated(EnvUpdated(lines, key, v1), key, v2) == EnvUpdated(lines, key, v2)
  {
    var r1 := EnvUpdated(lines, key, v1);
    EnvUpdateKeepsOtherLines(lines, key, v1);
    assert SetsKey(EnvEntry(key, v2), key) by {
      assert EnvEntry(key, v2)[..|key + "="|] == key + "=";
    }
    var a := EnvUpdated(r1, key, v2);
    var b := EnvUpdated(lines, key, v2);
    assert |a| == |b|;
    forall i | 0 <= i < |a|
      ensures a[i] == b[i]
    {
      if i < |lines| {
        assert r1[i] == if SetsKey(lines[i], key) then EnvEntry(key, v1) else lines[i];
      } else {
        assert r1[i] == EnvEntry(key, v1);
      }
    }
  }

  /** The new entry is a terminated line when neither the key nor the
      value holds a "\n". */
  lemma EnvEntryTerminated(key: string, value: string)
    requires '\n' !in key && '\n' !in value
    ensures Terminated(EnvEntry(key, value))
  {
    var e := EnvEntry(key, value);
    assert e[..|e| - 1] == key + "=" + value;
  }

  /** An update of terminated lines gives terminated lines. */
  lemma EnvUpdatedTerminated(lines: seq<string>, key: string, value: string)
    requires forall i :: 0 <= i < |lines| ==> Terminated(lines[i])
    requires '\n' !in key && '\n' !in value
    ensures forall i :: 0 <= i < |EnvUpdated(lines, key, value)| ==> Terminated(EnvUpdated(lines, key, value)[i])
  {
    EnvEntryTerminated(key, value);
  }

  /** A character missing from a text is missing from every line read. */
  lemma {:induction false} ReadLinesLack(text: string, ch: char)
    requires ch !in text
    ensures forall i :: 0 <= i < |ReadLines(text)| ==> ch !in ReadLines(text)[i]
    decreases |text|
  {
    if text != [] {
      var k := LineLength(text);
      ReadLinesFirst(text);
      ReadLinesLack(text[k..], ch);
      var lines := ReadLines(text);
      forall i | 0 <= i < |lines|
        ensures ch !in lines[i]
      {
        if i > 0 {
          assert lines[i] == lines[1..][i - 1];
        }
      }
    }
  }

  /** A character missing from every line is missing from what is written. */
  lemma {:induction false} ConcatLacks(lines: seq<string>, ch: char)
    requires forall i :: 0 <= i < |lines| ==> ch !in lines[i]
    ensures ch !in Concat(lines)
    decreases |lines|
  {
    if lines != [] {
      ConcatFirst(lines);
      ConcatLacks(lines[1..], ch);
    }
  }

  /** The lines written hold no "\r" when neither the lines read, nor the
      key, nor the value do. */
  lemma EnvUpdatedLacksReturn(lines: seq<string>, key: string, value: string)
    requires forall i :: 0 <= i < |lines| ==> '\r' !in lines[i]
    requires '\r' !in key && '\r' !in value
    ensures '\r' !in Concat(EnvUpdated(lines, key, value))
  {
    var e := EnvEntry(key, value);
    assert e == key + ("=" + value + "\n");
    assert '\r' !in e;
    ConcatLacks(EnvUpdated(lines, key, value), '\r');
  }

  /** Translated text that is empty or ends in "\n": the lines written
      hold no "\r", read back as they are and end in "\n". */
  lemma UpdatedLinesReadBack(t: string, key: string, value: string)
    requires t == [] || t[|t| - 1] == '\n'
    requires '\r' !in t
    requires '\n' !in key && '\n' !in value && '\r' !in key && '\r' !in value
    ensures var lines := EnvUpdated(ReadLines(t), key, value);
      ReadLines(Concat(lines)) == lines && '\r' !in Concat(lines)
    ensures var w := Concat(EnvUpdated(ReadLines(t), key, value)); w != [] && w[|w| - 1] == '\n'
  {
    var lines := EnvUpdated(ReadLines(t), key, value);
    ReadLinesLack(t, '\r');
    EnvUpdatedLacksReturn(ReadLines(t), key, value);
    ReadLinesTerminated(t);
    EnvUpdatedTerminated(ReadLines(t), key, value);
    ReadConcat(lines);
    EnvUpdateKeepsOtherLines(ReadLines(t), key, value);
    ConcatEndsInNewline(lines);
  }

  /** On a `.env` that is empty or ends in a line break, the file written
      holds no "\r", reads back as the updated lines and ends in "\n", so
      every property of `EnvUpdated` holds of the file itself. */
  lemma EnvFileReadsBack(text: string, key: string, value: string)
    requires text == [] || text[|text| - 1] == '\n' || text[|text| - 1] == '\r'
    requires '\n' !in key && '\n' !in value && '\r' !in key && '\r' !in value
    ensures FileLines(EnvFileUpdated(text, key, value)) == EnvUpdated(FileLines(text), key, value)
    ensures var w := EnvFileUpdated(text, key, value); w != [] && w[|w| - 1] == '\n' && '\r' !in w
  {
    var t := UniversalNewlines(text);
    NewlinesDropReturns(text);
    if text != [] {
      NewlinesKeepEnd(text);
    }
    UpdatedLinesReadBack(t, key, value);
    var w := Concat(EnvUpdated(ReadLines(t), key, value));
    assert w == EnvFileUpdated(text, key, value);
    NewlinesKeepPlainText(w);
  }

  /** On such a file, setting the key twice writes what setting it once to
      the second value writes. */
  lemma EnvFileOverwrites(text: string, key: string, v1: string, v2: string)
    requires text == [] || text[|text| - 1] == '\n' || text[|text| - 1] == '\r'
    requires '\n' !in key && '\n' !in v1 && '\n' !in v2
    requires '\r' !in key && '\r' !in v1 && '\r' !in v2
    ensures EnvFileUpdated(EnvFileUpdated(text, key, v1), key, v2) == EnvFileUpdated(text, key, v2)
  {
    EnvFileReadsBack(text, key, v1);
    EnvUpdateOverwrites(FileLines(text), key, v1, v2);
  }

  /** Text holding a "\n" only at its end, if at all, reads as one line. */
  lemma ReadOneLine(line: string)
    requires line != [] && '\n' !in line[..|line| - 1]
    ensures ReadLines(line) == [line]
  {
    LineLengthOfLine(line, []);
    assert line + [] == line;
    assert line[..|line|] == line && line[|line|..] == [];
  }

  /** Text added after a line long enough to hold `key=` does not make it
      set `key`. */
  lemma ExtendedLineKey(line: string, more: string, key: string)
    requires |line| > |key| && !SetsKey(line, key)
    ensures !SetsKey(line + more, key)
  {
    assert (line + more)[..|key + "="|] == line[..|key + "="|];
  }

  /** A single line that does not set the key is followed by the entry. */
  lemma AppendToOneLine(line: string, key: string, value: string)
    requires !SetsKey(line, key)
    ensures Concat(EnvUpdated([line], key, value)) == line + EnvEntry(key, value)
  {
    assert !HasKey([line], key);
    var lines := EnvUpdated([line], key, value);
    assert lines == [line, EnvEntry(key, value)];
    assert Concat(lines[1..]) == EnvEntry(key, value) + [];
  }

  /** Text without "\n" followed by a line holding a "\n" only at its
      end is again such a line. */
  lemma JoinedLine(a: string, b: string)
    requires '\n' !in a && b != [] && '\n' !in b[..|b| - 1]
    ensures a + b != [] && '\n' !in (a + b)[..|a + b| - 1]
  {
    assert (a + b)[..|a + b| - 1] == a + b[..|b| - 1];
  }

  /** A `.env` whose last line lacks its "\n" and does not set the key:
      the appended entry is written onto the end of that line. */
  lemma EnvFileAppendsToLast(last: string, key: string, value: string)
    requires last != [] && '\n' !in last && '\r' !in last
    requires !SetsKey(last, key)
    ensures EnvFileUpdated(last, key, value) == last + EnvEntry(key, value)
  {
    NewlinesKeepPlainText(last);
    ReadOneLine(last);
    AppendToOneLine(last, key, value);
  }

  /** The text so written (one line, such as "NGROK_AUTH_TOKEN=abc" followed
      by "NGROK_PUBLIC_URL=u\n") reads back as a single line, which no
      longer is the line it was, and no line of it sets the key. */
  lemma EnvFileMerges(last: string, key: string, value: string)
    requires last != [] && '\n' !in last && '\r' !in last
    requires |last| > |key| && !SetsKey(last, key)
    requires '\n' !in key && '\n' !in value && '\r' !in key && '\r' !in value
    ensures FileLines(last) == [last]
    ensures FileLines(last + EnvEntry(key, value)) == [last + EnvEntry(key, value)]
    ensures !HasKey(FileLines(last + EnvEntry(key, value)), key)
  {
    NewlinesKeepPlainText(last);
    ReadOneLine(last);
    var entry := EnvEntry(key, value);
    assert entry == key + ("=" + value + "\n");
    assert '\r' !in last + entry;
    NewlinesKeepPlainText(last + entry);
    EnvEntryTerminated(key, value);
    JoinedLine(last, entry);
    ReadOneLine(last + entry);
    ExtendedLineKey(last, entry, key);
    assert !HasKey([last + entry], key);
  }

  /** On such a file a second update appends a second entry: the file no
      longer equals what a single update with the second value writes. */
  lemma EnvFileRepeatAppends(last: string, key: string, v1: string, v2: string)
    requires last != [] && '\n' !in last && '\r' !in last
    requires |last| > |key| && !SetsKey(last, key)
    requires '\n' !in key && '\n' !in v1 && '\n' !in v2
    requires '\r' !in key && '\r' !in v1 && '\r' !in v2
    ensures EnvFileUpdated(EnvFileUpdated(last, key, v1), key, v2)
      == last + EnvEntry(key, v1) + EnvEntry(key, v2)
    ensures EnvFileUpdated(EnvFileUpdated(last, key, v1), key, v2) != EnvFileUpdated(last, key, v2)
  {
    EnvFileAppendsToLast(last, key, v1);
    EnvFileAppendsToLast(last, key, v2);
    EnvFileMerges(last, key, v1);
    var merged := last + EnvEntry(key, v1);
    assert EnvEntry(key, v1) == key + ("=" + v1 + "\n");
    NewlinesKeepPlainText(merged);
    ExtendedLineKey(last, EnvEntry(key, v1), key);
    AppendToOneLine(merged, key, v2);
  }

  /** A "\r" alone is read as "\n". */
  lemma ReadsLoneReturn(first: string, line: string)
    requires '\r' !in first && '\r' !in line
    requires line != [] && line[0] != '\n'
    ensures UniversalNewlines(first + "\r" + line) == first + "\n" + line
  {
    var tail := "\r" + line;
    assert tail[0] == '\r' && tail[1] == line[0] && tail[1..] == line;
    NewlinesKeepPlainText(line);
    assert UniversalNewlines(tail) == "\n" + line;
    assert first + "\r" + line == first + tail;
    NewlinesAfter(first, tail);
  }

  /** A "\r\n" is read as "\n". */
  lemma ReadsReturnNewline(first: string, middle: string)
    requires '\r' !in first && '\r' !in middle
    ensures UniversalNewlines(first + "\r\n" + middle + "\r\n") == first + "\n" + middle + "\n"
  {
    var last := "\r\n";
    assert last[0] == '\r' && last[1] == '\n' && last[2..] == [];
    assert UniversalNewlines(last) == "\n" + UniversalNewlines([]) == "\n";
    NewlinesAfter(middle, last);
    assert UniversalNewlines(middle + last) == middle + "\n";
    var tail := last + (middle + last);
    assert tail[0] == '\r' && tail[1] == '\n' && tail[2..] == middle + last;
    assert UniversalNewlines(tail) == "\n" + (middle + "\n");
    NewlinesAfter(first, tail);
    var text := first + "\r\n" + middle + "\r\n";
    assert text == first + tail;
    assert UniversalNewlines(text) == first + ("\n" + (middle + "\n"));
    assert first + ("\n" + (middle + "\n")) == first + "\n" + middle + "\n";
  }

  /** Two lines written one after the other. */
  lemma ConcatTwo(a: string, b: string)
    ensures Concat([a, b]) == a + b
  {
    var lines := [a, b];
    assert lines[1..] == [b] && [b][1..] == [];
    assert Concat(lines) == a + Concat([b]);
    assert Concat([b]) == b + Concat([]);
  }

  /** Two lines, each ending in its one "\n", are read back as they are. */
  lemma ReadsTwoLines(a: string, b: string)
    requires Terminated(a) && Terminated(b)
    ensures ReadLines(a + b) == [a, b]
  {
    ConcatTwo(a, b);
    ReadConcat([a, b]);
  }

  /** Of two lines, only the second setting `key`: the second is replaced. */
  lemma UpdatesSecondLine(a: string, b: string, key: string, value: string)
    requires !SetsKey(a, key) && SetsKey(b, key)
    ensures EnvUpdated([a, b], key, value) == [a, EnvEntry(key, value)]
  {
    var lines := [a, b];
    assert SetsKey(lines[1], key);
    assert HasKey(lines, key);
    var written := EnvUpdated(lines, key, value);
    assert |written| == 2;
    assert written[0] == a && written[1] == EnvEntry(key, value);
  }

  /** Two lines, the second setting `key`: the second is rewritten in
      place. */
  lemma RewritesSecondLine(first: string, key: string, prior: string, value: string)
    requires '\n' !in first && '\n' !in key && '\n' !in prior
    requires !SetsKey(first + "\n", key)
    ensures Concat(EnvUpdated(ReadLines(first + "\n" + (key + "=" + prior + "\n")), key, value))
      == first + "\n" + EnvEntry(key, value)
  {
    var a := first + "\n";
    var line := key + "=" + prior + "\n";
    assert a[..|a| - 1] == first;
    assert line[..|line| - 1] == key + "=" + prior;
    ReadsTwoLines(a, line);
    assert ReadLines(first + "\n" + (key + "=" + prior + "\n")) == [a, line];
    assert line[..|key + "="|] == key + "=";
    UpdatesSecondLine(a, line, key, value);
    ConcatTwo(a, EnvEntry(key, value));
  }

  /** A "\r", alone or before "\n", ends a line as "\n" does: the key on
      the line after it is rewritten in place, and the file is written back
      with "\n" line ends. */
  lemma CarriageReturnEndsLine(first: string, key: string, prior: string, value: string)
    requires '\n' !in first && '\n' !in key && '\n' !in prior
    requires '\r' !in first && '\r' !in key && '\r' !in prior
    requires !SetsKey(first + "\n", key)
    ensures EnvFileUpdated(first + "\r" + (key + "=" + prior + "\n"), key, value)
      == first + "\n" + EnvEntry(key, value)
    ensures EnvFileUpdated(first + "\r\n" + (key + "=" + prior) + "\r\n", key, value)
      == first + "\n" + EnvEntry(key, value)
  {
    var line := key + "=" + prior + "\n";
    assert line[0] != '\n' by { if key == [] { assert line[0] == '='; } else { assert line[0] == key[0]; } }
    ReadsLoneReturn(first, line);
    ReadsReturnNewline(first, key + "=" + prior);
    assert first + "\n" + (key + "=" + prior) + "\n" == first + "\n" + line;
    RewritesSecondLine(first, key, prior, value);
  }

  /** A line setting another key whose name has no "=" never sets `key`:
      an update of NGROK_PUBLIC_URL never rewrites the NGROK_AUTH_TOKEN
      line (though it can merge into it, see `EnvFileMerges`), and
      "KEY_OTHER=..." is not taken for "KEY". */
  lemma OtherKeysUntouched(line: string, key: string, other: string)
    requires SetsKey(line, other) && other != key
    requires forall i :: 0 <= i < |key| ==> key[i] != '='
    requires forall i :: 0 <= i < |other| ==> other[i] != '='
    ensures !SetsKey(line, key)
  {
    var n := |key| + 1;
    if n <= |line| {
      if |key| < |other| {
        assert line[|key|] == (other + "=")[|key|] == other[|key|];
        assert line[..n][|key|] != (key + "=")[|key|];
      } else if |other| < |key| {
        assert line[|other|] == (other + "=")[|other|] == '=';
        assert line[..n][|other|] != (key + "=")[|other|];
      } else {
        assert line[..n][..|key|] == line[..|other| + 1][..|other|] == other;
        assert (key + "=")[..|key|] == key;
      }
    }
  }

  /** `start_ngrok` once ngrok runs: `configured` says whether registering
      the auth token succeeded, `api` is the decoded answer of the local API
      (None when the request or the decoding fails) and `env` the text of
      `.env`. Returns the public URL and the text written to `.env`. */
  function StartNgrok(configured: bool, api: Option<Json>, env: Option<string>)
    : (r: (Option<string>, Option<string>))
    ensures r.0.Some? <==> configured && api.Some? && HasUsableTunnel(api.value)
    ensures r.0.None? ==> r.1.None?
    ensures r.0.Some? && env.Some? ==> r.1 == Some(EnvFileUpdated(env.value, "NGROK_PUBLIC_URL", r.0.value))
  {
    TunnelUrlExtracted(if api.Some? then api.value else JNull);
    if !configured || api.None? then (None, None)
    else
      match TunnelUrl(api.value)
      case None => (None, None)
      case Some(url) => (Some(url), if env.None? then None else Some(EnvFileUpdated(env.value, "NGROK_PUBLIC_URL", url)))
  }

  // ---------------------------------------------------------------------
  // handle_alexa
  // ---------------------------------------------------------------------

  const Greeting: string := "Hello, Jarvis is ready. What can I do for you?"
  const UnknownRequestType: string := "Sorry, I didn't understand that type of request."
  const NoLocalCommand: string := "Sorry, I didn't get a specific command for local action."
  const NoQuery: string := "Sorry, I didn't get a specific query for the AI."
  const IncompleteRequest: string := "Sorry, I received an incomplete request from Alexa."
  const InternalError: string := "Sorry, I encountered an internal error processing your request."

  /** The answer to an IntentRequest whose `intent` is given, evaluated as
      Python does; `ask` stands for `query_groq_model`, which catches its
      own errors and always answers. */
  function IntentReply(intent: Json, ask: Json -> string): Py<string> {
    match Get(intent, "name")
    case Raise(e) => Raise(e)
    case Ok(name) =>
      var local := name == JString("LocalToIntent");
      match Subscript(intent, "slots")
      case Raise(e) => Raise(e)
      case Ok(slots) =>
        match Get(slots, if local then "localquery" else "query")
        case Raise(e) => Raise(e)
        case Ok(slot) =>
          if !Truthy(slot) then Ok(if local then NoLocalCommand else NoQuery)
          else
            match In("value", slot)
            case Raise(e) => Raise(e)
            case Ok(hasValue) =>
              if !hasValue then Ok(if local then NoLocalCommand else NoQuery)
              else
                match Subscript(slot, "value")
                case Raise(e) => Raise(e)
                case Ok(userQuery) =>
                  if !local then Ok(ask(userQuery))
                  else
                    match userQuery
                    case JString(s) => Ok(AlexaHandler.HandleLocalCommand(s))
                    case _ => Raise(AttributeError) // `handle_local_command` calls `.lower()`
  }

  /** The body of the `try` in `handle_alexa`: the text, or the exception
      it raises. */
  function TryReply(data: Json, ask: Json -> string): Py<string> {
    match Lookup(data, ["request", "type"])
    case Raise(e) => Raise(e)
    case Ok(requestType) =>
      if requestType == JString("IntentRequest") then
        match Lookup(data, ["request", "intent"])
        case Raise(e) => Raise(e)
        case Ok(intent) => IntentReply(intent, ask)
      else if requestType == JString("LaunchRequest") then Ok(Greeting)
      else if requestType == JString("SessionEndedRequest") then Ok("")
      else Ok(UnknownRequestType)
  }

  /** The text `handle_alexa` answers with: a KeyError becomes the
      "incomplete request" apology, any other exception the "internal
      error" one. */
  function ResponseText(data: Json, ask: Json -> string): string {
    match TryReply(data, ask)
    case Ok(text) => text
    case Raise(KeyError) => IncompleteRequest
    case Raise(_) => InternalError
  }

  /** `handle_alexa`: every request, however malformed, is answered with a
      well-formed envelope carrying the response text. */
  function HandleAlexa(data: Json, ask: Json -> string): (r: Json)
    ensures AlexaHandler.WellFormedResponse(r)
    ensures AlexaHandler.SpokenText(r) == Some(ResponseText(data, ask))
  {
    AlexaHandler.ResponseRoundTrip(ResponseText(data, ask), ResponseText(data, ask));
    AlexaHandler.BuildAlexaResponse(ResponseText(data, ask))
  }

  /** LaunchRequest is greeted, SessionEndedRequest gets an empty text, and
      any other request type (a string or not) is not understood. */
  lemma RequestTypeReplies(data: Json, ask: Json -> string, t: Json)
    requires Lookup(data, ["request", "type"]) == Ok(t)
    ensures t == JString("LaunchRequest") ==> ResponseText(data, ask) == Greeting
    ensures t == JString("SessionEndedRequest") ==> ResponseText(data, ask) == ""
    ensures t !in {JString("IntentRequest"), JString("LaunchRequest"), JString("SessionEndedRequest")}
      ==> ResponseText(data, ask) == UnknownRequestType
  {
  }

  /** A key missing on the way to `request.type` is an incomplete request;
      a body that is not a JSON object at all is an internal error. */
  lemma MalformedRequests(data: Json, ask: Json -> string)
    ensures MissingKey(data, ["request", "type"]) ==> ResponseText(data, ask) == IncompleteRequest
    ensures !data.JObject? ==> ResponseText(data, ask) == InternalError
  {
    KeyErrorIffMissingKey(data, ["request", "type"]);
    if !data.JObject? {
      LookupFails(data, ["request", "type"]);
    }
  }

  /** The intent of an IntentRequest, reached through `request.intent`. */
  lemma IntentLookup(data: Json, key: string, slot: string, v: Json)
    requires Lookup(data, ["request", "intent", key, slot, "value"]) == Ok(v)
    ensures Lookup(data, ["request", "intent"]).Ok?
    ensures var intent := Lookup(data, ["request", "intent"]).value;
      && intent.JObject? && key in intent.fields
      && intent.fields[key].JObject? && slot in intent.fields[key].fields
      && intent.fields[key].fields[slot].JObject?
      && "value" in intent.fields[key].fields[slot].fields
      && intent.fields[key].fields[slot].fields["value"] == v
  {
    assert ["request", "intent", key, slot, "value"] == ["request", "intent"] + [key, slot, "value"];
    LookupAppend(data, ["request", "intent"], [key, slot, "value"]);
    var intent := Lookup(data, ["request", "intent"]).value;
    LookupFails(intent, [key, slot, "value"]);
    LookupFails(intent.fields[key], [slot, "value"]);
    LookupFails(intent.fields[key].fields[slot], ["value"]);
  }

  /** A LocalToIntent with a string `localquery` value is answered by
      `handle_local_command` on that value. */
  lemma LocalIntentAnswered(data: Json, ask: Json -> string, s: string)
    requires Lookup(data, ["request", "type"]) == Ok(JString("IntentRequest"))
    requires Lookup(data, ["request", "intent", "slots", "localquery", "value"]) == Ok(JString(s))
    requires Lookup(data, ["request", "intent", "name"]) == Ok(JString("LocalToIntent"))
    ensures ResponseText(data, ask) == AlexaHandler.HandleLocalCommand(s)
  {
    IntentLookup(data, "slots", "localquery", JString(s));
    assert ["request", "intent", "name"] == ["request", "intent"] + ["name"];
    LookupAppend(data, ["request", "intent"], ["name"]);
    LocalIntentReply(Lookup(data, ["request", "intent"]).value, ask, s);
  }

  /** The intent step of `LocalIntentAnswered`. */
  lemma LocalIntentReply(intent: Json, ask: Json -> string, s: string)
    requires intent.JObject? && "name" in intent.fields && intent.fields["name"] == JString("LocalToIntent")
    requires "slots" in intent.fields && intent.fields["slots"].JObject?
    requires var slots := intent.fields["slots"].fields;
      && "localquery" in slots && slots["localquery"].JObject?
      && "value" in slots["localquery"].fields && slots["localquery"].fields["value"] == JString(s)
    ensures IntentReply(intent, ask) == Ok(AlexaHandler.HandleLocalCommand(s))
  {
    var slots := intent.fields["slots"];
    var slot := slots.fields["localquery"];
    assert Get(intent, "name") == Ok(JString("LocalToIntent"));
    assert Subscript(intent, "slots") == Ok(slots);
    assert Get(slots, "localquery") == Ok(slot);
    assert Truthy(slot) by {
      assert "value" in slot.fields;
    }
    assert In("value", slot) == Ok(true);
    assert Subscript(slot, "value") == Ok(JString(s));
  }

  /** Any other intent, named or not, is answered by the model on its
      `query` value, whatever JSON value that is. */
  lemma QueryIntentAnswered(data: Json, ask: Json -> string, v: Json)
    requires Lookup(data, ["request", "type"]) == Ok(JString("IntentRequest"))
    requires Lookup(data, ["request", "intent", "slots", "query", "value"]) == Ok(v)
    requires Lookup(data, ["request", "intent", "name"]) != Ok(JString("LocalToIntent"))
    ensures ResponseText(data, ask) == ask(v)
  {
    IntentLookup(data, "slots", "query", v);
    assert ["request", "intent", "name"] == ["request", "intent"] + ["name"];
    LookupAppend(data, ["request", "intent"], ["name"]);
  }

  /** An intent whose slots lack the slot it reads (`localquery` for a
      LocalToIntent, `query` for any other), or hold it empty or without a
      value, gets the matching "didn't get a specific ..." apology; an
      intent without `slots` is an incomplete request. */
  lemma MissingSlotReplies(data: Json, ask: Json -> string, intent: Json)
    requires Lookup(data, ["request", "type"]) == Ok(JString("IntentRequest"))
    requires Lookup(data, ["request", "intent"]) == Ok(intent)
    requires intent.JObject?
    ensures "slots" !in intent.fields ==> ResponseText(data, ask) == IncompleteRequest
    ensures "slots" in intent.fields && intent.fields["slots"].JObject? ==>
      var slots := intent.fields["slots"].fields;
      var local := "name" in intent.fields && intent.fields["name"] == JString("LocalToIntent");
      var key := if local then "localquery" else "query";
      key !in slots || !Truthy(slots[key]) || (slots[key].JObject? && "value" !in slots[key].fields)
      ==> ResponseText(data, ask) == if local then NoLocalCommand else NoQuery
  {
  }
}
