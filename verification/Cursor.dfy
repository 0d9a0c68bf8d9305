// The opaque cursor a client sends back: sort-key parts, joined, encoded and printed.
module Cursor {
  import opened Options
  import Utf8
  import Base64Url

  // Between the parts; it cannot appear in one.
  const SEPARATOR: char := '\U{1F}'

  function Join(parts: seq<string>): string {
    if parts == [] then ""
    else if |parts| == 1 then parts[0]
    else parts[0] + [SEPARATOR] + Join(parts[1..])
  }

  // `str.split`: always at least one part.
  function Split(s: string): (parts: seq<string>)
    ensures parts != []
  {
    if s == "" then [""]
    else
      var rest := Split(s[1..]);
      if s[0] == SEPARATOR then [""] + rest else [[s[0]] + rest[0]] + rest[1..]
  }

  function Encode(parts: seq<string>): string {
    Base64Url.WithoutPadding(Base64Url.Print(Utf8.Encode(Join(parts))))
  }

  // The raw parts, or nothing if the text is no base64url of UTF-8.
  function Raw(cursor: string): Option<seq<string>> {
    var bytes := Base64Url.Read(Base64Url.Repadded(cursor));
    if bytes.None? then None
    else
      var text := Utf8.Decode(bytes.value);
      if text.None? then None else Some(Split(text.value))
  }

  function ParseAll<T>(parts: seq<string>, parsers: seq<string -> Option<T>>): Option<seq<T>>
    requires |parts| == |parsers|
  {
    if parts == [] then Some([])
    else
      var first := parsers[0](parts[0]);
      var rest := ParseAll(parts[1..], parsers[1..]);
      if first.None? || rest.None? then None else Some([first.value] + rest.value)
  }

  // One parser a part, in order; anything else is a malformed cursor.
  function Decode<T>(cursor: string, parsers: seq<string -> Option<T>>): Option<seq<T>> {
    var raw := Raw(cursor);
    if raw.None? || |raw.value| != |parsers| then None else ParseAll(raw.value, parsers)
  }

  // --- what comes back -------------------------------------------------------------------

  predicate HasSeparator(s: string) {
    exists i :: 0 <= i < |s| && s[i] == SEPARATOR
  }

  lemma {:induction false} SplitOne(s: string)
    requires !HasSeparator(s)
    ensures Split(s) == [s]
  {
    if s != "" {
      assert forall i :: 0 <= i < |s[1..]| ==> s[1..][i] == s[i + 1];
      SplitOne(s[1..]);
      assert s == [s[0]] + s[1..];
    }
  }

  lemma {:induction false} SplitFirst(s: string, rest: string)
    requires !HasSeparator(s)
    ensures Split(s + [SEPARATOR] + rest) == [s] + Split(rest)
  {
    var whole := s + [SEPARATOR] + rest;
    if s == "" {
      assert whole[1..] == rest;
    } else {
      assert forall i :: 0 <= i < |s[1..]| ==> s[1..][i] == s[i + 1];
      SplitFirst(s[1..], rest);
      assert whole[1..] == s[1..] + [SEPARATOR] + rest;
      assert s == [s[0]] + s[1..];
    }
  }

  lemma {:induction false} SplitJoined(parts: seq<string>)
    requires parts != [] && forall i :: 0 <= i < |parts| ==> !HasSeparator(parts[i])
    ensures Split(Join(parts)) == parts
  {
    if |parts| == 1 {
      SplitOne(parts[0]);
    } else {
      assert forall i :: 0 <= i < |parts[1..]| ==> parts[1..][i] == parts[i + 1];
      SplitJoined(parts[1..]);
      SplitFirst(parts[0], Join(parts[1..]));
      assert parts == [parts[0]] + parts[1..];
    }
  }

  // A cursor gives back the parts it was made of.
  lemma RoundTrip(parts: seq<string>)
    requires parts != [] && forall i :: 0 <= i < |parts| ==> !HasSeparator(parts[i])
    ensures Raw(Encode(parts)) == Some(parts)
  {
    Base64Url.RoundTrip(Utf8.Encode(Join(parts)));
    Utf8.RoundTrip(Join(parts));
    SplitJoined(parts);
  }

  // Read with as many parsers as it has parts, a cursor gives each part parsed; with any
  // other number it is refused, as is a part its parser refuses.
  lemma DecodesOwnCursor<T>(parts: seq<string>, parsers: seq<string -> Option<T>>)
    requires parts != [] && forall i :: 0 <= i < |parts| ==> !HasSeparator(parts[i])
    ensures var decoded := Decode(Encode(parts), parsers);
            && (decoded.Some? <==> |parts| == |parsers| && forall i :: 0 <= i < |parts| ==> parsers[i](parts[i]).Some?)
            && (decoded.Some? ==>
                  |decoded.value| == |parts| && forall i :: 0 <= i < |parts| ==> parsers[i](parts[i]) == Some(decoded.value[i]))
  {
    RoundTrip(parts);
    if |parts| == |parsers| {
      ParsesAll(parts, parsers);
    }
  }

  lemma {:induction false} ParsesAll<T>(parts: seq<string>, parsers: seq<string -> Option<T>>)
    requires |parts| == |parsers|
    ensures var parsed := ParseAll(parts, parsers);
            && (parsed.Some? <==> forall i :: 0 <= i < |parts| ==> parsers[i](parts[i]).Some?)
            && (parsed.Some? ==>
                  |parsed.value| == |parts| && forall i :: 0 <= i < |parts| ==> parsers[i](parts[i]) == Some(parsed.value[i]))
  {
    if parts != [] {
      ParsesAll(parts[1..], parsers[1..]);
      assert forall i :: 0 < i < |parts| ==> parsers[i](parts[i]) == parsers[1..][i - 1](parts[1..][i - 1]);
    }
  }

  // A cursor goes into a URL as it is.
  lemma CursorIsUrlSafe(parts: seq<string>)
    ensures Base64Url.IsUrlSafe(Encode(parts))
  {
    Base64Url.SpellsTheBits(Utf8.Encode(Join(parts)));
  }

  // --- what is accepted ---------------------------------------------------------------------

  ghost predicate AreParts(parts: seq<string>) {
    parts != [] && forall i :: 0 <= i < |parts| ==> !HasSeparator(parts[i])
  }

  // Splitting any text undoes the one joining there is of it.
  lemma {:induction false} SplitIs(s: string)
    ensures AreParts(Split(s)) && Join(Split(s)) == s
  {
    if s != "" {
      var rest := Split(s[1..]);
      SplitIs(s[1..]);
      if s[0] == SEPARATOR {
        assert ([""] + rest)[1..] == rest;
      } else {
        var first := [s[0]] + rest[0];
        assert ([first] + rest[1..])[1..] == rest[1..];
        assert forall i :: 0 < i < |first| ==> first[i] == rest[0][i - 1];
        FirstPartGrows(s[0], rest);
      }
    }
  }

  lemma FirstPartGrows(c: char, parts: seq<string>)
    requires parts != []
    ensures Join([[c] + parts[0]] + parts[1..]) == [c] + Join(parts)
  {
    var more := [[c] + parts[0]] + parts[1..];
    assert more[1..] == parts[1..];
    if |parts| > 1 {
      assert [c] + parts[0] + [SEPARATOR] + Join(parts[1..]) == [c] + (parts[0] + [SEPARATOR] + Join(parts[1..]));
    }
  }

  // A text is read as these parts exactly if, its padding worked out, it is base64url of the
  // UTF-8 of the parts joined; and a cursor with as many parsers as parts is accepted exactly
  // if each part is one its parser accepts.
  lemma ReadsExactly(cursor: string, parts: seq<string>)
    ensures Raw(cursor) == Some(parts) <==>
              AreParts(parts) && Base64Url.Read(Base64Url.Repadded(cursor)) == Some(Utf8.Encode(Join(parts)))
  {
    var bytes := Base64Url.Read(Base64Url.Repadded(cursor));
    if AreParts(parts) {
      SplitJoined(parts);
      Utf8.RoundTrip(Join(parts));
    }
    if Raw(cursor) == Some(parts) {
      var text := Utf8.Decode(bytes.value).value;
      Utf8.AcceptsExactly(bytes.value, text);
      SplitIs(text);
    }
  }

  lemma DecodesExactly<T>(cursor: string, parsers: seq<string -> Option<T>>)
    ensures var decoded, raw := Decode(cursor, parsers), Raw(cursor);
            && (decoded.Some? <==>
                  && raw.Some? && |raw.value| == |parsers|
                  && forall i :: 0 <= i < |parsers| ==> parsers[i](raw.value[i]).Some?)
            && (decoded.Some? ==>
                  && |decoded.value| == |parsers|
                  && forall i :: 0 <= i < |parsers| ==> parsers[i](raw.value[i]) == Some(decoded.value[i]))
  {
    var raw := Raw(cursor);
    if raw.Some? && |raw.value| == |parsers| {
      ParsesAll(raw.value, parsers);
    }
  }
}
