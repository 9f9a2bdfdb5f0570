/**
 * Reading a file through byte windows: every window starts and ends on a character, and consecutive windows tile it.
 */
module Windows {
  import opened Text
  import opened Utf8

  /** What a window shows: text, or the raw bytes of a binary file before they are put in base64. */
  datatype Content = Characters(chars: seq<Scalar>) | Binary(bytes: seq<Byte>)

  datatype FileText = FileText(content: Content, size: nat, offset: nat, next: nat, truncated: bool, notice: string)

  datatype Rejected = MidCharacter

  function Window(data: seq<Byte>, offset: nat, max: Option<nat>): (w: seq<Byte>) {
    var from := Min(offset, |data|);
    var to := if max.None? then |data| else Min(offset + max.value, |data|);
    data[from..to]
  }

  /** Empty for a whole file read from its start; otherwise the positions, and the next offset when there is more. */
  function Notice(start: nat, end: nat, size: nat, truncated: bool): string {
    if !truncated && start == 0 then ""
    else
      var shown := "showing bytes " + Decimal(start) + "-" + Decimal(end) + " of " + Decimal(size);
      if truncated then shown + "; continue with offset=" + Decimal(end) else shown
  }

  function Served(content: Content, data: seq<Byte>, offset: nat, shown: nat): FileText {
    var end := offset + shown;
    FileText(content, |data|, offset, end, end < |data|, Notice(offset, end, |data|, end < |data|))
  }

  /** A window decoded as far as whole characters go, or refused when its first byte cannot begin one. */
  function ReadOf(data: seq<Byte>, offset: nat, max: Option<nat>): Result<FileText, Rejected> {
    var window := Window(data, offset, max);
    if 0 in data then Ok(Served(Binary(window), data, offset, |window|))
    else
      var d := Decode(window);
      if d.Undecodable? then Err(MidCharacter)
      else Ok(Served(Characters(d.chars), data, offset, |window| - d.held))
  }

  const UTF8_STEP_BYTES: nat := 3

  /** The window at `offset`, or at the first of the next few offsets that is accepted. */
  function ReadFromOf(data: seq<Byte>, offset: nat, max: nat, step: nat): Result<FileText, Rejected>
    requires step <= UTF8_STEP_BYTES
    decreases UTF8_STEP_BYTES - step
  {
    var r := ReadOf(data, offset + step, Some(max));
    if r.Ok? || step == UTF8_STEP_BYTES then r else ReadFromOf(data, offset, max, step + 1)
  }

  class FakeEnvironments {
    var contents: map<(string, string), seq<Scalar>>

    /** The seeded file's bytes; a file never seeded is empty. */
    function Bytes(environment: string, path: string): seq<Byte>
      reads this
    {
      if (environment, path) in contents then Encode(contents[(environment, path)]) else Encode([])
    }

    method Read(environment: string, path: string, offset: nat, max: Option<nat>)
          returns (r: Result<FileText, Rejected>)
      ensures r == ReadOf(Bytes(environment, path), offset, max)
    {
      hide Decode, Notice, Encode;
      var data := Bytes(environment, path);
      var window := Window(data, offset, max);
      var content;
      if 0 in data {
        content := Binary(window);
      } else {
        var d := Decode(window);
        if d.Undecodable? { return Err(MidCharacter); }
        content := Characters(d.chars);
        window := window[..|window| - d.held];
      }
      var end := offset + |window|;
      var truncated := end < |data|;
      r := Ok(FileText(content, |data|, offset, end, truncated, Notice(offset, end, |data|, truncated)));
    }
  }

  /** The retry loop: at most four reads, at consecutive offsets, answering with the first accepted. */
  method ReadFrom(client: FakeEnvironments, environment: string, path: string, offset: nat, max: nat)
      returns (r: Result<FileText, Rejected>)
    ensures r == ReadFromOf(client.Bytes(environment, path), offset, max, 0)
  {
    hide ReadOf, Encode;
    ghost var data := client.Bytes(environment, path);
    for step := 0 to UTF8_STEP_BYTES
      invariant ReadFromOf(data, offset, max, step) == ReadFromOf(data, offset, max, 0)
    {
      r := client.Read(environment, path, offset + step, Some(max));
      if r.Ok? { return; }
    }
    r := client.Read(environment, path, offset + UTF8_STEP_BYTES, Some(max));
  }

  // ------------------------------------------------------------ what a window says

  /** What is said of a window: nothing of a whole file, and else which bytes it shows and where to go on. */
  function Said(from: nat, to: nat, size: nat): string {
    if from == 0 && to >= size then ""
    else "showing bytes " + Decimal(from) + "-" + Decimal(to) + " of " + Decimal(size)
         + (if to < size then "; continue with offset=" + Decimal(to) else "")
  }

  /** The bytes between two places, as far as the file goes. */
  function Stretch(data: seq<Byte>, from: nat, to: nat): seq<Byte>
    requires from <= to
  {
    data[Min(from, |data|)..Min(to, |data|)]
  }

  /** The places a window gives, and what it says of them. */
  predicate SaysWhere(f: FileText, size: nat, offset: nat, max: Option<nat>) {
    && f.offset == offset <= f.next && f.size == size && (f.truncated <==> f.next < size)
    && (max.Some? ==> f.next <= offset + max.value) && f.notice == Said(offset, f.next, size)
  }

  /** A window shows the bytes it answers for: as they are, or as the characters they encode. */
  predicate ShowsStretch(f: FileText, data: seq<Byte>)
    requires f.offset <= f.next
  {
    (if f.content.Binary? then f.content.bytes else Encode(f.content.chars)) == Stretch(data, f.offset, f.next)
  }

  lemma ServedSays(content: Content, data: seq<Byte>, offset: nat, shown: nat, max: Option<nat>)
    requires max.Some? ==> shown <= max.value
    ensures SaysWhere(Served(content, data, offset, shown), |data|, offset, max)
  {
    hide Decimal;
  }

  lemma WindowSize(data: seq<Byte>, offset: nat, max: Option<nat>)
    ensures var w := Window(data, offset, max);
            && (max.Some? ==> |w| <= max.value) && w == Stretch(data, offset, offset + |w|)
            && (if max.None? then offset + |w| >= |data| else w == Stretch(data, offset, offset + max.value))
  {
  }

  /**
   * A window answers for the bytes from its offset to its end, and never for more than were asked for. A file with a
   * NUL in it shows them as they are, and all that were asked for; any other shows the characters they encode, and is
   * refused only where its bytes are no such thing.
   */
  lemma WindowReads(data: seq<Byte>, offset: nat, max: Option<nat>)
    ensures var r := ReadOf(data, offset, max);
            && (r.Ok? ==> SaysWhere(r.value, |data|, offset, max) && ShowsStretch(r.value, data))
            && (r.Ok? ==> (r.value.content.Binary? <==> 0 in data))
            && (r.Err? <==> 0 !in data && Decode(Window(data, offset, max)).Undecodable?)
            && (0 in data ==>
                  (r.value.content.bytes
                   == Stretch(data, offset, if max.None? then offset + |data| else offset + max.value)))
  {
    hide Decode, Encode, Served, Window, SaysWhere;
    var window := Window(data, offset, max);
    WindowSize(data, offset, max);
    if 0 in data {
      ServedSays(Binary(window), data, offset, |window|, max);
      ServedShows(Binary(window), data, offset, |window|);
    } else {
      var d := Decode(window);
      if d.Decoded? {
        ServedSays(Characters(d.chars), data, offset, |window| - d.held, max);
        EncodeDecode(window);
        assert window[..|window| - d.held] == Stretch(data, offset, offset + (|window| - d.held));
        ServedShows(Characters(d.chars), data, offset, |window| - d.held);
      }
    }
  }

  lemma ServedShows(content: Content, data: seq<Byte>, offset: nat, shown: nat)
    requires (if content.Binary? then content.bytes else Encode(content.chars)) == Stretch(data, offset, offset + shown)
    ensures Served(content, data, offset, shown).offset <= Served(content, data, offset, shown).next
    ensures ShowsStretch(Served(content, data, offset, shown), data)
    ensures Served(content, data, offset, shown).content == content
  {
    hide Encode, Notice;
  }

  // ------------------------------------------------------------ character boundaries

  /** The index of the first character that starts at or after byte `o`. */
  function Seek(chars: seq<Scalar>, o: nat): (i: nat)
    ensures i <= |chars|
  {
    if o == 0 || chars == [] then 0
    else 1 + Seek(chars[1..], if o <= Width(chars[0]) then 0 else o - Width(chars[0]))
  }

  /** It is the least boundary there, and at most three bytes on. */
  lemma {:induction false} SeekLeast(chars: seq<Scalar>, o: nat)
    requires o <= |Encode(chars)|
    ensures o <= Start(chars, Seek(chars, o)) <= o + 3
    ensures Seek(chars, o) > 0 ==> Start(chars, Seek(chars, o) - 1) < o
    decreases |chars|
  {
    hide EncodeChar;
    StartEnds(chars);
    if o > 0 && chars != [] {
      var w := Width(chars[0]);
      var later := if o <= w then 0 else o - w;
      SeekLeast(chars[1..], later);
      StartCons(chars, Seek(chars, o));
      StartEnds(chars[1..]);
      if Seek(chars, o) > 1 { StartCons(chars, Seek(chars, o) - 1); }
    }
  }

  lemma {:induction false} StartsGrow(chars: seq<Scalar>, i: nat, j: nat)
    requires i <= j <= |chars|
    ensures Start(chars, i) + (j - i) <= Start(chars, j)
    decreases j
  {
    hide Start;
    if i < j {
      StartsGrow(chars, i, j - 1);
      StartNext(chars, j - 1);
    }
  }

  /** The text has no NUL, so neither have its bytes. */
  lemma {:induction false} NoNul(chars: seq<Scalar>)
    requires 0 !in chars
    ensures 0 !in Encode(chars)
  {
    if chars != [] {
      NoNul(chars[1..]);
      CharNotNul(chars[0]);
    }
  }

  lemma CharNotNul(c: Scalar)
    requires c != 0
    ensures 0 !in EncodeChar(c)
  {
  }

  /** The bytes a window beginning on character `i` may show. */
  function Room(chars: seq<Scalar>, i: nat, max: Option<nat>): nat
    requires i <= |chars|
  {
    var left := |Encode(chars[i..])|;
    if max.None? then left else Min(max.value, left)
  }

  lemma WindowWithin(data: seq<Byte>, o: nat, max: Option<nat>)
    requires o <= |data|
    ensures var left := |data| - o; var cut := if max.None? then left else Min(max.value, left);
            Window(data, o, max) == data[o..][..cut]
  {
  }

  lemma WindowAt(chars: seq<Scalar>, i: nat, max: Option<nat>)
    requires i <= |chars|
    ensures Window(Encode(chars), Start(chars, i), max) == Encode(chars[i..])[..Room(chars, i, max)]
  {
    hide Encode, Start, Window;
    DropEncoded(chars, i);
    WindowWithin(Encode(chars), Start(chars, i), max);
  }

  lemma ReadDecoded(data: seq<Byte>, o: nat, max: Option<nat>)
    requires 0 !in data
    ensures var d := Decode(Window(data, o, max));
            ReadOf(data, o, max) == if d.Undecodable? then Err(MidCharacter)
                                    else Ok(Served(Characters(d.chars), data, o, |Window(data, o, max)| - d.held))
  {
    hide Decode, Served, Window;
  }

  lemma DecodeAt(chars: seq<Scalar>, i: nat, max: Option<nat>)
    requires i <= |chars|
    ensures var n := Room(chars, i, max); var k := Fits(chars[i..], n);
            && i + k <= |chars| && |Window(Encode(chars), Start(chars, i), max)| == n && Start(chars[i..], k) <= n
            && Decode(Window(Encode(chars), Start(chars, i), max)) == Decoded(chars[i..i + k], n - Start(chars[i..], k))
  {
    hide Encode, Decode, Window, Start, Fits;
    WindowAt(chars, i, max);
    var n := Room(chars, i, max);
    PrefixDecodes(chars[i..], n);
    assert chars[i..][..Fits(chars[i..], n)] == chars[i..i + Fits(chars[i..], n)];
  }

  /** What a read on a boundary answers: the characters that fit, and where the next one starts. */
  lemma ReadOnBoundary(chars: seq<Scalar>, i: nat, max: Option<nat>)
    requires 0 !in chars && i <= |chars|
    ensures var k := Fits(chars[i..], Room(chars, i, max));
            && i + k <= |chars|
            && ReadOf(Encode(chars), Start(chars, i), max)
               == Ok(Served(Characters(chars[i..i + k]), Encode(chars), Start(chars, i), Start(chars[i..], k)))
            && Start(chars, i) + Start(chars[i..], k) == Start(chars, i + k)
  {
    hide Encode, Decode, Served, ReadOf, Window, Start, Fits, Room;
    NoNul(chars);
    DecodeAt(chars, i, max);
    ReadDecoded(Encode(chars), Start(chars, i), max);
    StartsAdd(chars, i, Fits(chars[i..], Room(chars, i, max)));
  }

  lemma StartsAdd(chars: seq<Scalar>, i: nat, k: nat)
    requires i + k <= |chars|
    ensures Start(chars, i) + Start(chars[i..], k) == Start(chars, i + k)
  {
    hide Encode;
    EncodeAppend(chars[..i], chars[i..][..k]);
    assert chars[..i + k] == chars[..i] + chars[i..][..k];
  }

  /** A window that starts inside a character begins with the end of that character. */
  lemma WindowInside(chars: seq<Scalar>, i: nat, d: nat, max: Option<nat>)
    requires i < |chars| && 0 < d < Width(chars[i])
    ensures var t := EncodeChar(chars[i])[d..] + Encode(chars[i + 1..]);
            var cut := if max.None? then |t| else Min(max.value, |t|);
            Window(Encode(chars), Start(chars, i) + d, max) == t[..cut]
  {
    hide Encode, EncodeChar, Start, Window;
    DropEncoded(chars, i);
    EncodeUnfolds(chars, i);
    DropTwice(Encode(chars), Start(chars, i), d, EncodeChar(chars[i]), Encode(chars[i + 1..]));
    WindowWithin(Encode(chars), Start(chars, i) + d, max);
  }

  lemma DropTwice(data: seq<Byte>, from: nat, d: nat, a: seq<Byte>, b: seq<Byte>)
    requires from <= |data| && data[from..] == a + b && d <= |a|
    ensures from + d <= |data| && data[from + d..] == a[d..] + b
  {
    assert data[from + d..] == data[from..][d..];
  }

  /** A read inside a character is refused, when it asks for anything at all. */
  lemma ReadInside(chars: seq<Scalar>, i: nat, o: nat, max: Option<nat>)
    requires 0 !in chars && i < |chars| && Start(chars, i) < o < Start(chars, i + 1) && max != Some(0)
    ensures ReadOf(Encode(chars), o, max) == Err(MidCharacter)
  {
    hide EncodeChar, Encode, Decode, ReadOf, Window, Start;
    NoNul(chars);
    StartNext(chars, i);
    var d := o - Start(chars, i);
    WindowInside(chars, i, d, max);
    ReadDecoded(Encode(chars), o, max);
    var rest := Encode(chars[i + 1..]);
    var whole := Width(chars[i]) - d + |rest|;
    InsideRefused(chars[i], d, rest, if max.None? then whole else Min(max.value, whole));
  }

  lemma EncodeUnfolds(chars: seq<Scalar>, i: nat)
    requires i < |chars|
    ensures Encode(chars[i..]) == EncodeChar(chars[i]) + Encode(chars[i + 1..])
  {
    hide EncodeChar;
    assert chars[i..][1..] == chars[i + 1..];
  }

  lemma InsideRefused(c: Scalar, d: nat, rest: seq<Byte>, cut: nat)
    requires 0 < d < Width(c) && 1 <= cut <= Width(c) - d + |rest|
    ensures Decode((EncodeChar(c)[d..] + rest)[..cut]) == Undecodable
  {
    FirstInside(c, d, rest);
    hide EncodeChar;
    var t := EncodeChar(c)[d..] + rest;
    assert t[..cut][0] == t[0];
    BadLead(t, t[..cut]);
  }

  /** A first byte that no character starts with settles it, whatever follows. */
  lemma BadLead(t: seq<Byte>, u: seq<Byte>)
    requires t != [] && u != [] && t[0] == u[0] && Length(t[0]) == 0
    ensures First(u) == Malformed
  {
  }

  // ------------------------------------------------------------ landing on a boundary

  lemma {:induction false} StepsTo(data: seq<Byte>, offset: nat, max: nat, step: nat, last: nat)
    requires step <= last <= UTF8_STEP_BYTES && ReadOf(data, offset + last, Some(max)).Ok?
    requires forall o | offset + step <= o < offset + last :: ReadOf(data, o, Some(max)).Err?
    ensures ReadFromOf(data, offset, max, step) == ReadOf(data, offset + last, Some(max))
    decreases last - step
  {
    hide ReadOf;
    if step < last { StepsTo(data, offset, max, step + 1, last); }
  }

  /**
   * From any offset in the file, a read lands on the least character boundary at or after it, at most three bytes on,
   * and shows the characters that fit from there.
   */
  lemma ReadFromLands(chars: seq<Scalar>, offset: nat, max: nat)
    requires 0 !in chars && offset <= |Encode(chars)| && max >= 1
    ensures var i := Seek(chars, offset); var k := Fits(chars[i..], Room(chars, i, Some(max)));
            && offset <= Start(chars, i) <= offset + UTF8_STEP_BYTES && (i > 0 ==> Start(chars, i - 1) < offset)
            && ReadFromOf(Encode(chars), offset, max, 0)
               == Ok(Served(Characters(chars[i..i + k]), Encode(chars), Start(chars, i), Start(chars[i..], k)))
            && Start(chars, i) + Start(chars[i..], k) == Start(chars, i + k)
  {
    hide Encode, ReadOf, ReadFromOf, Served, Start, Fits, Seek;
    var i := Seek(chars, offset);
    SeekLeast(chars, offset);
    ReadOnBoundary(chars, i, Some(max));
    var last := Start(chars, i) - offset;
    StartZero(chars, i);
    forall o | offset <= o < offset + last ensures ReadOf(Encode(chars), o, Some(max)).Err? {
      ReadInside(chars, i - 1, o, Some(max));
    }
    StepsTo(Encode(chars), offset, max, 0, last);
  }

  lemma StartZero(chars: seq<Scalar>, i: nat)
    requires i <= |chars|
    ensures i == 0 ==> Start(chars, i) == 0
  {
  }

  /** Past the end there is nothing to land on: the window is empty and says it is the last. */
  lemma ReadPastEnd(chars: seq<Scalar>, offset: nat, max: nat)
    requires 0 !in chars && offset >= |Encode(chars)|
    ensures ReadFromOf(Encode(chars), offset, max, 0) == Ok(Served(Characters([]), Encode(chars), offset, 0))
    ensures !Served(Characters([]), Encode(chars), offset, 0).truncated
  {
    hide Encode, Notice;
    NoNul(chars);
    assert Window(Encode(chars), offset, Some(max)) == [];
  }

  // ------------------------------------------------------------ windows tile the file

  /** A window moves on exactly when the character it starts on fits in it. */
  lemma ProgressExactly(chars: seq<Scalar>, i: nat, max: nat)
    requires 0 !in chars && i < |chars|
    ensures var r := ReadOf(Encode(chars), Start(chars, i), Some(max));
            r.Ok? && (r.value.next > Start(chars, i) <==> Width(chars[i]) <= max)
  {
    hide Encode, ReadOf, Start, EncodeChar;
    ReadOnBoundary(chars, i, Some(max));
    var k := Fits(chars[i..], Room(chars, i, Some(max)));
    StartZero(chars[i..], 0);
    StartsGrow(chars[i..], 0, k);
    EncodeUnfolds(chars, i);
  }

  /** Each window starts where the one before it said to go on, and the last one says there is no more. */
  ghost predicate Follows(windows: seq<FileText>, data: seq<Byte>, offset: nat, max: nat)
    decreases |windows|
  {
    && windows != [] && ReadOf(data, offset, Some(max)) == Ok(windows[0])
    && if windows[0].truncated then Follows(windows[1..], data, windows[0].next, max) else |windows| == 1
  }

  function Shown(windows: seq<FileText>): seq<Scalar> {
    if windows == [] then []
    else (if windows[0].content.Characters? then windows[0].content.chars else []) + Shown(windows[1..])
  }

  /** Following the windows shows the rest of the file: nothing skipped and nothing shown twice. */
  lemma {:induction false} WindowsTile(chars: seq<Scalar>, i: nat, max: nat, windows: seq<FileText>)
    requires 0 !in chars && i <= |chars| && Follows(windows, Encode(chars), Start(chars, i), max)
    ensures Shown(windows) == chars[i..]
    decreases |windows|
  {
    hide Encode, ReadOf, Start, Fits, Notice;
    ReadOnBoundary(chars, i, Some(max));
    var k := Fits(chars[i..], Room(chars, i, Some(max)));
    StartEnds(chars);
    if windows[0].truncated {
      WindowsTile(chars, i + k, max, windows[1..]);
      assert chars[i..] == chars[i..i + k] + chars[i + k..];
    } else {
      StartsGrow(chars, i + k, |chars|);
      assert Shown(windows[1..]) == [];
      assert chars[i..i + k] == chars[i..];
    }
  }

  /** With room for any character, following the windows comes to an end. */
  lemma {:induction false} WindowsEnd(chars: seq<Scalar>, i: nat, max: nat) returns (windows: seq<FileText>)
    requires 0 !in chars && i <= |chars| && max >= 4
    ensures Follows(windows, Encode(chars), Start(chars, i), max)
    decreases |chars| - i
  {
    hide Encode, ReadOf, Start, Fits, Notice;
    ReadOnBoundary(chars, i, Some(max));
    var k := Fits(chars[i..], Room(chars, i, Some(max)));
    var w := ReadOf(Encode(chars), Start(chars, i), Some(max)).value;
    StartEnds(chars);
    if w.truncated {
      if i < |chars| { ProgressExactly(chars, i, max); }
      var later := WindowsEnd(chars, i + k, max);
      windows := [w] + later;
      assert windows[1..] == later;
    } else {
      windows := [w];
    }
  }

  /** A window too narrow for the character it starts on comes back empty, and says to go on where it is: forever. */
  lemma NarrowWindowStalls(max: nat)
    requires 1 <= max < 4
    ensures var chars := [0x1F600]; var r := ReadOf(Encode(chars), 0, Some(max));
            r.Ok? && r.value.content == Characters([]) && r.value.truncated && r.value.next == 0
  {
    var chars: seq<Scalar> := [0x1F600];
    hide ReadOf, EncodeChar, Notice;
    StartZero(chars, 0);
    assert chars[0..] == chars && Encode(chars) == EncodeChar(chars[0]) + Encode(chars[1..]) && chars[1..] == [];
    ReadOnBoundary(chars, 0, Some(max));
  }
}
