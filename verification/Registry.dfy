/** Lists of strings as REG_MULTI_SZ registry values: each string and then the whole list is
    ended by a NUL. */
module Registry {

  const NUL: char := '\0'

  /** An entry of an array of counted strings; the array is ended by one without a buffer. */
  datatype AnsiString = NoBuffer | Str(text: string)

  // ---- The format ----

  function Encoding(list: seq<string>): (r: string)
    ensures r != []
  {
    if list == [] then [NUL] else list[0] + [NUL] + Encoding(list[1..])
  }

  /** The index of the first NUL, or the length. */
  function Length(b: string): (n: nat)
    ensures n <= |b| && (n < |b| ==> b[n] == NUL)
    ensures forall i :: 0 <= i < n ==> b[i] != NUL
  {
    if b == [] || b[0] == NUL then 0 else 1 + Length(b[1..])
  }

  /** An empty string comes before the end of the buffer. */
  predicate Terminated(b: string)
    decreases |b|
  {
    b != [] && (b[0] == NUL || (Length(b) < |b| && Terminated(b[Length(b) + 1..])))
  }

  function Split(b: string): seq<string>
    requires Terminated(b)
    decreases |b|
  {
    if b[0] == NUL then [] else [b[..Length(b)]] + Split(b[Length(b) + 1..])
  }

  predicate Plain(s: string) {
    s != [] && NUL !in s
  }

  lemma LengthIs(b: string, n: nat)
    requires n < |b| && b[n] == NUL && forall i :: 0 <= i < n ==> b[i] != NUL
    ensures Length(b) == n
  {
  }

  /** Whatever the strings are, the decoder finds the end of an encoded list. */
  lemma {:induction false} EndsTerminated(b: string)
    requires |b| >= 1 && b[|b| - 1] == NUL && (|b| >= 2 ==> b[|b| - 2] == NUL)
    ensures Terminated(b)
    decreases |b|
  {
    if b[0] != NUL {
      var n := Length(b);
      assert n <= |b| - 2;
      EndsTerminated(b[n + 1..]);
    }
  }

  lemma {:induction false} EncodingEnds(list: seq<string>)
    ensures var b := Encoding(list); b[|b| - 1] == NUL && (|b| >= 2 ==> b[|b| - 2] == NUL)
  {
    if list != [] {
      EncodingEnds(list[1..]);
    }
  }

  lemma PlaceShifted(b: string, c: string, x: string, p: nat, s: string)
    requires b == x + [NUL] + c && SitsAt(c, p, s)
    ensures SitsAt(b, |x| + 1 + p, s)
  {
    assert b[|x| + 1..] == c;
    assert b[|x| + 1 + p..|x| + 1 + p + |s|] == c[p..p + |s|];
  }

  /** A string sits at a place, with a NUL after it. */
  ghost predicate SitsAt(b: string, p: nat, s: string) {
    p + |s| < |b| && b[p..p + |s|] == s && b[p + |s|] == '\0'
  }

  function Shifted(rest: seq<nat>, n: nat): (r: seq<nat>)
    ensures |r| == |rest| && forall i :: 0 <= i < |rest| ==> r[i] == n + rest[i]
  {
    seq(|rest|, i requires 0 <= i < |rest| => n + rest[i])
  }

  /** Where the strings are in an encoded list: one after the other from the start, a NUL after
      each and one more at the end. */
  lemma {:induction false} EncodingPlaces(list: seq<string>) returns (at: seq<nat>)
    ensures |at| == |list| + 1 && at[0] == 0 && |Encoding(list)| == at[|list|] + 1
    ensures Encoding(list)[at[|list|]] == '\0'
    ensures forall i, m :: 0 <= i < |list| && m == i + 1 ==> at[m] == at[i] + |list[i]| + 1
    ensures forall i :: 0 <= i < |list| ==> SitsAt(Encoding(list), at[i], list[i])
  {
    if list == [] {
      at := [0];
    } else {
      var x, tail := list[0], list[1..];
      var rest := EncodingPlaces(tail);
      var b, c := Encoding(list), Encoding(tail);
      assert b == x + [NUL] + c;
      hide Encoding, SitsAt, Shifted;
      at := [0] + Shifted(rest, |x| + 1);
      FirstSits(b, c, x);
      forall i | 0 <= i < |tail| ensures SitsAt(b, |x| + 1 + rest[i], tail[i]) {
        PlaceShifted(b, c, x, rest[i], tail[i]);
      }
      SitsAll(b, list, at, rest);
      forall i, m | 0 <= i < |list| && m == i + 1 ensures at[m] == at[i] + |list[i]| + 1 {
        PlaceNext(list, at, rest, i);
      }
    }
  }

  lemma SitsAll(b: string, list: seq<string>, at: seq<nat>, rest: seq<nat>)
    requires 0 < |list| == |rest| && at == [0] + Shifted(rest, |list[0]| + 1) && SitsAt(b, 0, list[0])
    requires forall i :: 0 <= i < |list[1..]| ==> SitsAt(b, |list[0]| + 1 + rest[i], list[1..][i])
    ensures forall i :: 0 <= i < |list| ==> SitsAt(b, at[i], list[i])
  {
    hide SitsAt;
    forall i | 0 <= i < |list| ensures SitsAt(b, at[i], list[i]) {
      if i > 0 {
        assert SitsAt(b, |list[0]| + 1 + rest[i - 1], list[1..][i - 1]);
      }
    }
  }

  lemma FirstSits(b: string, c: string, x: string)
    requires b == x + [NUL] + c && c != []
    ensures SitsAt(b, 0, x) && |b| == |x| + 1 + |c| && b[|b| - 1] == c[|c| - 1]
  {
  }

  lemma PlaceNext(list: seq<string>, at: seq<nat>, rest: seq<nat>, i: nat)
    requires i < |list| == |rest| && at == [0] + Shifted(rest, |list[0]| + 1) && rest[0] == 0
    requires i > 0 ==> rest[i] == rest[i - 1] + |list[1..][i - 1]| + 1
    ensures at[i + 1] == at[i] + |list[i]| + 1
  {
  }

  lemma EncodingTerminated(list: seq<string>)
    ensures Terminated(Encoding(list))
  {
    EncodingEnds(list);
    EndsTerminated(Encoding(list));
  }

  /** The decoder returns only strings that are not empty and have no NUL inside. */
  lemma {:induction false} SplitPlain(b: string)
    requires Terminated(b)
    ensures forall i :: 0 <= i < |Split(b)| ==> Plain(Split(b)[i])
    decreases |b|
  {
    if b[0] != NUL {
      SplitPlain(b[Length(b) + 1..]);
    }
  }

  lemma {:induction false} SplitEncoding(list: seq<string>)
    requires forall i :: 0 <= i < |list| ==> Plain(list[i])
    ensures Terminated(Encoding(list)) && Split(Encoding(list)) == list
  {
    EncodingTerminated(list);
    if list != [] {
      var b, rest := Encoding(list), Encoding(list[1..]);
      assert b[..|list[0]|] == list[0];
      LengthIs(b, |list[0]|);
      assert b[|list[0]| + 1..] == rest;
      SplitEncoding(list[1..]);
    }
  }

  /** Decoding an encoded list gives back exactly the lists of plain strings. */
  lemma RoundTripIff(list: seq<string>)
    ensures Terminated(Encoding(list))
    ensures Split(Encoding(list)) == list <==> forall i :: 0 <= i < |list| ==> list[i] != "" && '\0' !in list[i]
  {
    assert forall i :: 0 <= i < |list| ==> (Plain(list[i]) <==> list[i] != "" && '\0' !in list[i]);
    EncodingTerminated(list);
    if forall i :: 0 <= i < |list| ==> Plain(list[i]) {
      SplitEncoding(list);
    } else if Split(Encoding(list)) == list {
      SplitPlain(Encoding(list));
    }
  }

  lemma EncodingDone()
    ensures Encoding([]) == [NUL]
  {
  }

  lemma EncodingCons(x: string, list: seq<string>, rest: string)
    requires Encoding(list) <= rest
    ensures Encoding([x] + list) <= x + [NUL] + rest
  {
    assert ([x] + list)[1..] == list;
  }

  /** Encoding what was decoded gives back the buffer up to the end of its list. */
  lemma {:induction false} EncodingSplit(b: string)
    requires Terminated(b)
    ensures Encoding(Split(b)) <= b
    decreases |b|
  {
    hide Split, Terminated, Length, Encoding;
    SplitFirst(b);
    if Length(b) == 0 {
      EncodingDone();
    } else {
      var n := Length(b);
      var rest := b[n + 1..];
      EncodingSplit(rest);
      EncodingCons(b[..n], Split(rest), rest);
      assert b == b[..n] + [NUL] + rest;
    }
  }

  // ---- The encoder ----

  const USHORT: nat := 0x1_0000

  /** The array holds the list and is ended by an entry without a buffer. */
  ghost predicate Represents(ansi: array<AnsiString>, list: seq<string>)
    reads ansi
  {
    |list| < ansi.Length && ansi[|list|] == NoBuffer
    && forall i :: 0 <= i < |list| ==> ansi[i] == Str(list[i])
  }

  function Put(b: string, at: nat, s: string): string
    requires at + |s| < |b|
  {
    b[..at] + s + [NUL] + b[at + |s| + 1..]
  }

  /** The system's conversion into a buffer with room for maximumLength bytes, of two for each
      character: it writes the string and a NUL, or fails for want of room. */
  method RtlAnsiStringToUnicodeString(data: array<char>, at: nat, maximumLength: nat, s: string) returns (ok: bool)
    requires at + maximumLength / 2 <= data.Length && maximumLength % 2 == 0
    modifies data
    ensures ok <==> 2 * (|s| + 1) < USHORT && 2 * |s| < maximumLength
    ensures ok ==> data[..] == Put(old(data[..]), at, s)
  {
    ok := 2 * (|s| + 1) < USHORT && 2 * |s| < maximumLength;
    if ok {
      forall i | 0 <= i < |s| {
        data[at + i] := s[i];
      }
      data[at + |s|] := NUL;
    }
  }

  lemma EncodingFrom(list: seq<string>, i: nat)
    requires i < |list|
    ensures Encoding(list[i..]) == list[i] + [NUL] + Encoding(list[i + 1..])
  {
    assert list[i..][1..] == list[i + 1..];
  }

  lemma PutNext(b: string, at: nat, list: seq<string>, i: nat)
    requires i < |list| && at + |Encoding(list[i..])| == |b|
    requires b[..at] + Encoding(list[i..]) == Encoding(list)
    ensures at + |list[i]| < |b|
    ensures var c := Put(b, at, list[i]);
            |c| == |b| && c[..at + |list[i]| + 1] + Encoding(list[i + 1..]) == Encoding(list)
            && at + |list[i]| + 1 + |Encoding(list[i + 1..])| == |c|
  {
    EncodingFrom(list, i);
    var c := Put(b, at, list[i]);
    assert c[..at + |list[i]| + 1] == b[..at] + list[i] + [NUL];
    assert b[..at] + (list[i] + [NUL] + Encoding(list[i + 1..])) == b[..at] + list[i] + [NUL] + Encoding(list[i + 1..]);
  }

  /** The number of characters that the encoding needs. */
  method TotalLength(ansi: array<AnsiString>, ghost list: seq<string>) returns (length: nat)
    requires Represents(ansi, list)
    ensures length == |Encoding(list)|
  {
    hide Encoding;
    EncodingDone();
    length := 1;
    var index := 0;
    assert list[0..] == list && list[|list|..] == [];
    while ansi[index].Str?
      invariant index <= |list|
      invariant |Encoding(list)| == length - 1 + |Encoding(list[index..])|
      decreases |list| - index
    {
      EncodingFrom(list, index);
      length := length + |ansi[index].text| + 1;
      index := index + 1;
    }
  }

  /** The encoder succeeds exactly when the encoding has less than 65536 bytes, because the
      16-bit count of room left starts out too small otherwise. Its buffer then holds exactly
      the encoding, and its cursor has come to the last character. */
  method RegistryAnsiToMultiSz(ansi: array<AnsiString>, ghost list: seq<string>)
    returns (ok: bool, data: array<char>, cursor: nat)
    requires Represents(ansi, list)
    ensures fresh(data) && data.Length == |Encoding(list)|
    ensures ok <==> 2 * |Encoding(list)| < 65536
    ensures ok ==> data[..] == Encoding(list) && cursor == data.Length - 1
  {
    hide Encoding, Put;
    EncodingDone();
    assert list[0..] == list && list[|list|..] == [];
    var length := TotalLength(ansi, list);
    var index := 0;
    data := new char[length](_ => NUL);
    var maximumLength := 2 * length % USHORT;
    ghost var missing := 2 * length - maximumLength;
    cursor := 0;
    ok := true;
    assert data[..0] + Encoding(list[0..]) == Encoding(list);
    while ok && ansi[index].Str?
      invariant index <= |list| && data.Length == length
      invariant ok || missing > 0
      invariant ok ==> cursor + |Encoding(list[index..])| == length
      invariant ok ==> data[..cursor] + Encoding(list[index..]) == Encoding(list)
      invariant ok ==> maximumLength == 2 * |Encoding(list[index..])| - missing >= 0
      decreases |list| - index, ok
    {
      EncodingFrom(list, index);
      ghost var before := data[..];
      PutNext(before, cursor, list, index);
      var text := ansi[index].text;
      ok := RtlAnsiStringToUnicodeString(data, cursor, maximumLength, text);
      if ok {
        maximumLength := maximumLength - 2 * (|text| + 1);
        cursor := cursor + |text| + 1;
        index := index + 1;
      }
    }
    if ok {
      data[cursor] := NUL;
    }
  }

  // ---- The decoder ----

  method Wcslen(b: array<char>, at: nat) returns (n: nat)
    requires at <= b.Length && Length(b[at..]) < |b[at..]|
    ensures n == Length(b[at..])
  {
    n := 0;
    while b[at + n] != NUL
      invariant n <= Length(b[at..])
      decreases Length(b[at..]) - n
    {
      assert b[at..][n] == b[at + n];
      n := n + 1;
    }
    LengthIs(b[at..], n);
  }

  lemma SplitFirst(c: string)
    requires Terminated(c)
    ensures c != [] && Length(c) < |c| && (Length(c) == 0 <==> c[0] == NUL)
    ensures Length(c) == 0 ==> Split(c) == []
    ensures Length(c) > 0 ==> Terminated(c[Length(c) + 1..])
    ensures Length(c) > 0 ==> Split(c) == [c[..Length(c)]] + Split(c[Length(c) + 1..])
  {
    hide Length;
  }

  lemma Suffixes(b: string, i: nat, n: nat)
    requires i + n < |b|
    ensures b[i..][n + 1..] == b[i + n + 1..] && b[i..][..n] == b[i..i + n]
  {
  }

  lemma SplitNext(b: string, i: nat)
    requires i <= |b| && Terminated(b[i..])
    ensures i < |b| && Length(b[i..]) < |b[i..]| && (Length(b[i..]) == 0 <==> b[i] == NUL)
    ensures Length(b[i..]) == 0 ==> Split(b[i..]) == []
    ensures var n := Length(b[i..]); n > 0 ==> Terminated(b[i + n + 1..])
    ensures var n := Length(b[i..]); n > 0 ==> Split(b[i..]) == [b[i..i + n]] + Split(b[i + n + 1..])
  {
    hide Split, Terminated, Length;
    SplitFirst(b[i..]);
    Suffixes(b, i, Length(b[i..]));
  }

  method CountStrings(b: array<char>) returns (count: nat)
    requires Terminated(b[..])
    ensures count == |Split(b[..])|
  {
    hide Split, Terminated, Length;
    ghost var all := b[..];
    assert all[0..] == all;
    SplitNext(all, 0);
    var index: nat := 0;
    count := 0;
    var length := Wcslen(b, index);
    while length != 0
      invariant index < b.Length && Terminated(all[index..]) && length == Length(all[index..])
      invariant count + |Split(all[index..])| == |Split(all)|
      decreases b.Length - index
    {
      SplitNext(all, index);
      index := index + length + 1;
      count := count + 1;
      SplitNext(all, index);
      length := Wcslen(b, index);
    }
    SplitNext(all, index);
  }

  lemma NextString(b: string, at: nat, list: seq<string>, i: nat)
    requires at <= |b| && Terminated(b[at..]) && i < |list| && list == list[..i] + Split(b[at..])
    ensures var n := Length(b[at..]);
            at + n + 1 <= |b| && n < |b[at..]| && Terminated(b[at + n + 1..]) && list[i] == b[at..at + n]
            && list == list[..i + 1] + Split(b[at + n + 1..])
  {
    hide Split, Terminated, Length;
    SplitNext(b, at);
    assert list[i..] == Split(b[at..]);
    assert list[..i + 1] == list[..i] + [list[i]];
  }

  /** The decoder counts the strings, then copies each: the result is the list that the buffer
      holds, ended by an entry without a buffer. */
  method RegistryMultiSzToAnsi(b: array<char>) returns (ansi: array<AnsiString>)
    requires Terminated(b[..])
    ensures fresh(ansi) && ansi.Length == |Split(b[..])| + 1 && ansi[|Split(b[..])|] == NoBuffer
    ensures forall i :: 0 <= i < |Split(b[..])| ==> ansi[i] == Str(Split(b[..])[i])
  {
    hide Split, Terminated, Length, Represents;
    var count := CountStrings(b);
    ansi := new AnsiString[count + 1](_ => NoBuffer);
    ghost var all := b[..];
    ghost var list := Split(all);
    var index, at: nat := 0, 0;
    assert all[0..] == all && list == list[..0] + list;
    while index < count
      invariant index <= count == |list| && at <= b.Length && Terminated(all[at..])
      invariant list == list[..index] + Split(all[at..])
      invariant forall i :: 0 <= i < index ==> ansi[i] == Str(list[i])
      invariant ansi[count] == NoBuffer
    {
      NextString(all, at, list, index);
      var length := Wcslen(b, at);
      ansi[index] := Str(b[at..at + length]);
      at := at + length + 1;
      index := index + 1;
    }
  }
}
