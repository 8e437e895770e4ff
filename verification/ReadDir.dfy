/** A directory listing cut into fixed-size buffers, as fd_readdir hands it to its caller. */
module ReadDir {
  import opened Wrappers
  import opened Bytes

  datatype DirEnt = DirEnt(next: nat, ino: nat, kind: byte, path: seq<byte>)

  /** The fields have the widths of their types. */
  predicate Representable(d: DirEnt) {
    d.next < U64 && d.ino < U64 && |d.path| < U32
  }

  predicate AllRepresentable(entries: seq<DirEnt>) {
    forall i :: 0 <= i < |entries| ==> Representable(entries[i])
  }

  const HEADER: nat := 24

  /** The dirent structure; the three bytes at its end only pad it. */
  function Header(d: DirEnt, padding: seq<byte>): (bytes: seq<byte>)
    requires |padding| == 3
    ensures |bytes| == HEADER
  {
    U64Field(d.next) + U64Field(d.ino) + U32Field(|d.path|) + [d.kind] + padding
  }

  /** Byte by byte: the next cookie, the inode, the length of the name and the type, each the lowest byte first. */
  lemma HeaderLayout(d: DirEnt, padding: seq<byte>, k: nat)
    requires |padding| == 3 && k < 8
    ensures var h := Header(d, padding);
      && h[k] as nat == (d.next / Pow256(k)) % 256 && h[8 + k] as nat == (d.ino / Pow256(k)) % 256
      && (k < 4 ==> h[16 + k] as nat == (|d.path| / Pow256(k)) % 256)
      && h[20] == d.kind && h[21..] == padding
  {
    hide U64Field, U32Field, Pow256;
    U64FieldByte(d.next, k);
    U64FieldByte(d.ino, k);
    if k < 4 {
      U32FieldByte(|d.path|, k);
    }
  }

  function Size(d: DirEnt): nat {
    HEADER + |d.path|
  }

  // ------------------------------------------------------------------ filling

  /** What one call writes, how many entries it finishes, and whether it stopped for lack of room. */
  datatype Page = Page(written: seq<byte>, taken: nat, full: bool)

  /** Entries one after the other while they fit; of the first that does not fit, the header if that does. */
  function Fill(entries: seq<DirEnt>, padding: seq<byte>, room: nat): (p: Page)
    requires |padding| == 3
    ensures |p.written| <= room && p.taken <= |entries|
    decreases |entries|
  {
    if entries == [] then Page([], 0, false)
    else
      var d := entries[0];
      if room < HEADER then Page([], 0, true)
      else if room < Size(d) then Page(Header(d, padding), 0, true)
      else
        var rest := Fill(entries[1..], padding, room - Size(d));
        Page(Header(d, padding) + d.path + rest.written, rest.taken + 1, rest.full)
  }

  /** The number a call returns. */
  function Returned(p: Page, bufferLen: nat): nat {
    if p.full then bufferLen else |p.written|
  }

  // ----------------------------------------------------------------- decoding

  /** The entry at a position of a buffer, if it is complete before the end. */
  function EntryAt(buffer: seq<byte>, pos: nat, end: nat): (d: Option<DirEnt>)
    requires end <= |buffer|
    ensures d.Some? ==> pos + Size(d.value) <= end
  {
    if pos + HEADER > end then None
    else
      var length := FromLittleEndian(buffer[pos + 16..pos + 20]);
      if pos + HEADER + length > end then None
      else
        Some(DirEnt(FromLittleEndian(buffer[pos..pos + 8]), FromLittleEndian(buffer[pos + 8..pos + 16]),
                    buffer[pos + 20], buffer[pos + HEADER..pos + HEADER + length]))
  }

  /** The complete entries a caller finds in a buffer. */
  function Decode(buffer: seq<byte>, pos: nat, end: nat): seq<DirEnt>
    requires end <= |buffer|
    decreases |buffer| - pos
  {
    match EntryAt(buffer, pos, end)
    case None => []
    case Some(d) => [d] + Decode(buffer, pos + Size(d), end)
  }

  lemma HeaderOccurs(d: DirEnt, padding: seq<byte>, buffer: seq<byte>, pos: nat)
    requires |padding| == 3 && Occurs(Header(d, padding), buffer, pos)
    ensures Occurs(U64Field(d.next), buffer, pos) && Occurs(U64Field(d.ino), buffer, pos + 8)
    ensures Occurs(U32Field(|d.path|), buffer, pos + 16) && buffer[pos + 20] == d.kind
  {
    hide LittleEndian, U64Field, U32Field;
    var a, b, c := U64Field(d.next), U64Field(d.ino), U32Field(|d.path|);
    OccursSplit(a + b + c + [d.kind], padding, buffer, pos);
    OccursSplit(a + b + c, [d.kind], buffer, pos);
    OccursSplit(a + b, c, buffer, pos);
    OccursSplit(a, b, buffer, pos);
    assert buffer[pos + 20..pos + 21] == [d.kind];
  }

  lemma HeaderReads(d: DirEnt, padding: seq<byte>, buffer: seq<byte>, pos: nat)
    requires |padding| == 3 && Representable(d) && Occurs(Header(d, padding), buffer, pos)
    ensures FromLittleEndian(buffer[pos..pos + 8]) == d.next && FromLittleEndian(buffer[pos + 8..pos + 16]) == d.ino
    ensures FromLittleEndian(buffer[pos + 16..pos + 20]) == |d.path| && buffer[pos + 20] == d.kind
  {
    HeaderOccurs(d, padding, buffer, pos);
    hide LittleEndian, FromLittleEndian, U64Field, U32Field, Header;
    U64FieldAt(d.next, buffer, pos);
    U64FieldAt(d.ino, buffer, pos + 8);
    U32FieldAt(|d.path|, buffer, pos + 16);
  }

  /** The header of an entry is read back; the entry is complete exactly if its name fits as well. */
  lemma EntryReads(d: DirEnt, padding: seq<byte>, buffer: seq<byte>, pos: nat, end: nat)
    requires |padding| == 3 && Representable(d) && end <= |buffer|
    requires pos + HEADER <= end && Occurs(Header(d, padding), buffer, pos)
    ensures EntryAt(buffer, pos, end).Some? <==> pos + Size(d) <= end
    ensures pos + Size(d) <= end && Occurs(d.path, buffer, pos + HEADER) ==> EntryAt(buffer, pos, end) == Some(d)
  {
    HeaderReads(d, padding, buffer, pos);
    hide FromLittleEndian, Header, Representable;
  }

  lemma DecodeNext(buffer: seq<byte>, pos: nat, end: nat, d: DirEnt)
    requires end <= |buffer| && EntryAt(buffer, pos, end) == Some(d)
    ensures Decode(buffer, pos, end) == [d] + Decode(buffer, pos + Size(d), end)
  {
  }

  lemma DecodeEnds(buffer: seq<byte>, pos: nat, end: nat)
    requires end <= |buffer| && EntryAt(buffer, pos, end) == None
    ensures Decode(buffer, pos, end) == []
  {
  }

  lemma FillStep(entries: seq<DirEnt>, padding: seq<byte>, room: nat)
    requires |padding| == 3 && entries != [] && room >= Size(entries[0])
    ensures var d := entries[0];
      var p, rest := Fill(entries, padding, room), Fill(entries[1..], padding, room - Size(d));
      && p == Page(Header(d, padding) + d.path + rest.written, rest.taken + 1, rest.full)
      && Returned(p, room) == Size(d) + Returned(rest, room - Size(d))
  {
  }

  lemma FillStops(entries: seq<DirEnt>, padding: seq<byte>, room: nat)
    requires |padding| == 3 && (entries != [] ==> room < Size(entries[0]))
    ensures Fill(entries, padding, room)
      == if entries == [] then Page([], 0, false)
         else Page(if room < HEADER then [] else Header(entries[0], padding), 0, true)
  {
  }

  /** What a caller decodes from what a call returns is what the call took from the listing, whatever else is in the
      buffer. */
  lemma {:induction false} FillDecodes(
    entries: seq<DirEnt>, padding: seq<byte>, room: nat, buffer: seq<byte>, pos: nat)
    requires |padding| == 3 && AllRepresentable(entries) && pos + room <= |buffer|
    requires Occurs(Fill(entries, padding, room).written, buffer, pos)
    ensures var p := Fill(entries, padding, room);
      Decode(buffer, pos, pos + Returned(p, room)) == entries[..p.taken]
    decreases |entries|
  {
    hide Header, Representable, Occurs, Fill, EntryAt, Decode;
    var p := Fill(entries, padding, room);
    var end := pos + Returned(p, room);
    if entries == [] || room < Size(entries[0]) {
      FillStops(entries, padding, room);
      if entries != [] && room >= HEADER {
        EntryReads(entries[0], padding, buffer, pos, end);
      } else {
        NoRoom(buffer, pos, end);
      }
      DecodeEnds(buffer, pos, end);
    } else {
      var d := entries[0];
      var rest := Fill(entries[1..], padding, room - Size(d));
      FillStep(entries, padding, room);
      OccursSplit(Header(d, padding) + d.path, rest.written, buffer, pos);
      OccursSplit(Header(d, padding), d.path, buffer, pos);
      EntryReads(d, padding, buffer, pos, end);
      DecodeNext(buffer, pos, end, d);
      FillDecodes(entries[1..], padding, room - Size(d), buffer, pos + Size(d));
      assert entries[..p.taken] == [d] + entries[1..][..rest.taken];
    }
  }

  lemma NoRoom(buffer: seq<byte>, pos: nat, end: nat)
    requires end <= |buffer| && end < pos + HEADER
    ensures EntryAt(buffer, pos, end) == None
  {
  }

  /** A call leaves entries behind exactly if it fills its buffer for lack of room. */
  lemma {:induction false} FullIffLeft(entries: seq<DirEnt>, padding: seq<byte>, room: nat)
    requires |padding| == 3
    ensures var p := Fill(entries, padding, room); p.full <==> p.taken < |entries|
    decreases |entries|
  {
    if entries != [] && room >= Size(entries[0]) {
      FullIffLeft(entries[1..], padding, room - Size(entries[0]));
    }
  }

  /** A call advances exactly if the next entry fits its buffer. */
  lemma AdvancesIffFits(entries: seq<DirEnt>, padding: seq<byte>, room: nat)
    requires |padding| == 3 && entries != []
    ensures Fill(entries, padding, room).taken >= 1 <==> room >= Size(entries[0])
  {
  }

  // ------------------------------------------------------------ repeated calls

  /** Calls one after the other, each on a buffer of its own size: where each begins in the listing, and what the
      buffers hold afterwards. */
  predicate Calls(listing: seq<DirEnt>, padding: seq<byte>, buffers: seq<seq<byte>>, starts: seq<nat>)
    requires |padding| == 3
  {
    && |starts| == |buffers| + 1 && starts[0] == 0
    && forall k :: 0 <= k < |buffers| ==> CallAt(listing, padding, buffers[k], starts[k], starts[k + 1])
  }

  predicate CallAt(listing: seq<DirEnt>, padding: seq<byte>, buffer: seq<byte>, start: nat, next: nat)
    requires |padding| == 3
  {
    && start <= |listing|
    && var p := Fill(listing[start..], padding, |buffer|);
      next == start + p.taken && Occurs(p.written, buffer, 0)
  }

  function Answer(listing: seq<DirEnt>, padding: seq<byte>, buffer: seq<byte>, start: nat): (n: nat)
    requires |padding| == 3 && start <= |listing|
    ensures n <= |buffer|
  {
    Returned(Fill(listing[start..], padding, |buffer|), |buffer|)
  }

  /** Everything the caller decodes from the first calls, in order. */
  function Collected(listing: seq<DirEnt>, padding: seq<byte>, buffers: seq<seq<byte>>, starts: seq<nat>, n: nat)
    : seq<DirEnt>
    requires |padding| == 3 && Calls(listing, padding, buffers, starts) && n <= |buffers|
  {
    if n == 0 then []
    else
      assert CallAt(listing, padding, buffers[n - 1], starts[n - 1], starts[n - 1 + 1]);
      Collected(listing, padding, buffers, starts, n - 1)
      + Decode(buffers[n - 1], 0, Answer(listing, padding, buffers[n - 1], starts[n - 1]))
  }

  lemma CallDecodes(listing: seq<DirEnt>, padding: seq<byte>, buffer: seq<byte>, start: nat, next: nat)
    requires |padding| == 3 && AllRepresentable(listing) && CallAt(listing, padding, buffer, start, next)
    ensures start <= next <= |listing|
    ensures Decode(buffer, 0, Answer(listing, padding, buffer, start)) == listing[start..next]
  {
    hide Decode, Fill, Occurs;
    FillDecodes(listing[start..], padding, |buffer|, buffer, 0);
    assert listing[start..][..next - start] == listing[start..next];
  }

  /** After any calls on any buffers, what was collected is the listing up to where the iterator is: in order, nothing
      twice, nothing left out. */
  lemma {:induction false} CallsCollect(
    listing: seq<DirEnt>, padding: seq<byte>, buffers: seq<seq<byte>>, starts: seq<nat>, n: nat)
    requires |padding| == 3 && AllRepresentable(listing) && Calls(listing, padding, buffers, starts) && n <= |buffers|
    ensures starts[n] <= |listing| && Collected(listing, padding, buffers, starts, n) == listing[..starts[n]]
  {
    hide Decode, Answer, AllRepresentable, CallAt;
    if n > 0 {
      CallsCollect(listing, padding, buffers, starts, n - 1);
      var start, next := starts[n - 1], starts[n - 1 + 1];
      assert CallAt(listing, padding, buffers[n - 1], start, next);
      CallDecodes(listing, padding, buffers[n - 1], start, next);
      assert listing[..start] + listing[start..next] == listing[..next];
    }
  }

  predicate Holds(buffer: seq<byte>, listing: seq<DirEnt>) {
    forall i :: 0 <= i < |listing| ==> |buffer| >= Size(listing[i])
  }

  /** With buffers that hold every entry each call advances until the listing is exhausted. */
  lemma {:induction false} CallsAdvance(
    listing: seq<DirEnt>, padding: seq<byte>, buffers: seq<seq<byte>>, starts: seq<nat>, n: nat)
    requires |padding| == 3 && Calls(listing, padding, buffers, starts) && n <= |buffers|
    requires forall k :: 0 <= k < n ==> Holds(buffers[k], listing)
    ensures starts[n] >= if n < |listing| then n else |listing|
  {
    hide Fill, Occurs;
    if n > 0 {
      CallsAdvance(listing, padding, buffers, starts, n - 1);
      var start := starts[n - 1];
      assert CallAt(listing, padding, buffers[n - 1], start, starts[n - 1 + 1]);
      if start < |listing| {
        assert Holds(buffers[n - 1], listing);
        AdvancesIffFits(listing[start..], padding, |buffers[n - 1]|);
      }
    }
  }

  /** A caller stops at the first call that returns less than its buffer. It then has the whole listing, and if its
      buffers hold every entry that call comes at the latest after as many as there are entries. */
  lemma ShortAnswerEnds(listing: seq<DirEnt>, padding: seq<byte>, buffers: seq<seq<byte>>, starts: seq<nat>, n: nat)
    requires |padding| == 3 && AllRepresentable(listing) && Calls(listing, padding, buffers, starts) && n < |buffers|
    ensures starts[n] <= |listing| && (Answer(listing, padding, buffers[n], starts[n]) < |buffers[n]| ==>
      Collected(listing, padding, buffers, starts, n + 1) == listing)
    ensures n >= |listing| && (forall k :: 0 <= k <= n ==> Holds(buffers[k], listing)) && |buffers[n]| > 0 ==>
      Answer(listing, padding, buffers[n], starts[n]) < |buffers[n]|
  {
    CallsCollect(listing, padding, buffers, starts, n);
    CallsCollect(listing, padding, buffers, starts, n + 1);
    assert CallAt(listing, padding, buffers[n], starts[n], starts[n + 1]);
    FullIffLeft(listing[starts[n]..], padding, |buffers[n]|);
    if n >= |listing| && forall k :: 0 <= k <= n ==> Holds(buffers[k], listing) {
      CallsAdvance(listing, padding, buffers, starts, n);
      assert listing[starts[n]..] == [];
    }
    hide Decode, Occurs, Collected, Fill, Holds;
  }

  // ------------------------------------------------------------- the iterator

  /** An entry as the host lists it. */
  datatype HostEnt = HostEnt(ino: nat, kind: byte, name: seq<byte>)

  /** The listing of a directory: the cookie of an entry is the position after it. */
  function Listing(host: seq<HostEnt>): (listing: seq<DirEnt>)
    ensures |listing| == |host|
    ensures forall i :: 0 <= i < |host| ==>
      listing[i] == DirEnt(i + 1, host[i].ino, host[i].kind, host[i].name)
  {
    seq(|host|, i requires 0 <= i < |host| => DirEnt(i + 1, host[i].ino, host[i].kind, host[i].name))
  }

  /** So the cookie of the last entry a caller has is where the iterator is. */
  lemma CookieIsPosition(
    host: seq<HostEnt>, padding: seq<byte>, buffers: seq<seq<byte>>, starts: seq<nat>, n: nat)
    requires |padding| == 3 && AllRepresentable(Listing(host)) && n <= |buffers|
    requires Calls(Listing(host), padding, buffers, starts)
    ensures var got := Collected(Listing(host), padding, buffers, starts, n);
      got != [] ==> got[|got| - 1].next == starts[n]
  {
    CallsCollect(Listing(host), padding, buffers, starts, n);
  }

  class FileDescriptor {
    var dirContentsLoaded: bool
    var dirContents: seq<DirEnt>
    var dirContentsIdx: nat

    predicate Valid()
      reads this
    {
      dirContentsIdx <= |dirContents| && (!dirContentsLoaded ==> dirContents == [])
    }

    constructor ()
      ensures Valid() && !dirContentsLoaded && dirContentsIdx == 0
    {
      dirContentsLoaded, dirContents, dirContentsIdx := false, [], 0;
    }

    method IterReset()
      modifies this
      ensures Valid() && !dirContentsLoaded && dirContentsIdx == 0
    {
      dirContentsLoaded, dirContentsIdx, dirContents := false, 0, [];
    }

    method LoadDirContents(host: seq<HostEnt>)
      requires Valid() && !dirContentsLoaded
      modifies this`dirContentsLoaded, this`dirContents
      ensures Valid() && dirContentsLoaded && dirContents == Listing(host)
    {
      for nextIdx := 0 to |host|
        invariant dirContents == Listing(host)[..nextIdx]
      {
        var direntPtr := host[nextIdx];
        dirContents := dirContents + [DirEnt(nextIdx + 1, direntPtr.ino, direntPtr.kind, direntPtr.name)];
      }
      dirContentsLoaded := true;
    }

    function IterFinished(): bool
      reads this
    {
      dirContentsLoaded && dirContentsIdx >= |dirContents|
    }

    method IterBack() returns (r: Result<(), string>)
      modifies this`dirContentsIdx
      ensures r.Ok? <==> dirContentsLoaded && old(dirContentsIdx) > 0
      ensures dirContentsIdx == old(dirContentsIdx) - if r.Ok? then 1 else 0
    {
      if !dirContentsLoaded {
        return Err("Iterator not started, cannot go back");
      }
      if dirContentsIdx == 0 {
        return Err("Iterator already at zero, cannot go back");
      }
      dirContentsIdx := dirContentsIdx - 1;
      return Ok(());
    }

    /** The listing the iterator is on: the one loaded, or that it would load. */
    function Contents(host: seq<HostEnt>): seq<DirEnt>
      reads this
    {
      if dirContentsLoaded then dirContents else Listing(host)
    }

    method IterNext(host: seq<HostEnt>) returns (r: Result<DirEnt, string>)
      requires Valid()
      modifies this
      ensures Valid() && dirContentsLoaded && dirContents == old(Contents(host))
      ensures dirContents == if old(dirContentsLoaded) then old(dirContents) else Listing(host)
      ensures r.Ok? <==> old(dirContentsIdx) < |dirContents|
      ensures r.Ok? ==> r.value == dirContents[old(dirContentsIdx)]
      ensures dirContentsIdx == old(dirContentsIdx) + if r.Ok? then 1 else 0
    {
      if !dirContentsLoaded {
        LoadDirContents(host);
      }
      if IterFinished() {
        return Err("Accessing index past the directory's length");
      }
      var nextEntry := dirContents[dirContentsIdx];
      dirContentsIdx := dirContentsIdx + 1;
      return Ok(nextEntry);
    }

    /** One call: entries are written while they fit. If one does not, the iterator steps back to it and the whole
        buffer counts as used. A directory listed as empty when it is first loaded is an error. */
    method CopyDirentsToWasiBuffer(buffer: array<byte>, padding: seq<byte>, host: seq<HostEnt>)
      returns (r: Result<nat, string>)
      requires Valid() && |padding| == 3
      modifies this, buffer
      ensures Valid() && dirContentsLoaded && dirContents == old(Contents(host))
      ensures r.Err? <==> !old(dirContentsLoaded) && host == []
      ensures r.Err? ==> buffer[..] == old(buffer[..]) && dirContentsIdx == old(dirContentsIdx)
      ensures r.Ok? ==>
        var p := Fill(dirContents[old(dirContentsIdx)..], padding, buffer.Length);
        && r.value == Returned(p, buffer.Length) && dirContentsIdx == old(dirContentsIdx) + p.taken
        && buffer[..] == p.written + old(buffer[..])[|p.written|..]
    {
      hide Header, Fill, Wrote, SoFar, Copied;
      ghost var listing, start, was := Contents(host), dirContentsIdx, buffer[..];
      var bufferLen: nat := buffer.Length;
      var bytesLeft: nat, isBufferFull := bufferLen, false;
      ghost var written: seq<byte> := [];
      ghost var p := Fill(listing[start..], padding, bufferLen);
      WroteNothing(buffer[..]);
      StartsFrom(listing, start, padding, bufferLen);
      while !IterFinished()
        invariant Valid() && start <= dirContentsIdx && listing == Contents(host)
        invariant !isBufferFull && bytesLeft == bufferLen - |written| && Wrote(buffer[..], was, written)
        invariant !dirContentsLoaded ==> !old(dirContentsLoaded) && dirContentsIdx == start && written == []
        invariant dirContentsLoaded ==> old(dirContentsLoaded) || host != []
        invariant SoFar(p, listing, dirContentsIdx, dirContentsIdx - start, padding, written, bytesLeft)
        decreases |listing| - dirContentsIdx, !dirContentsLoaded
      {
        ghost var idx := dirContentsIdx;
        var next := IterNext(host);
        if next.Err? {
          WroteAll(buffer[..], was, written);
          return Err(next.error);
        }
        var d := next.value;
        ghost var bytes := Copied(d, padding, bytesLeft);
        var fits := CopyDirent(buffer, bytesLeft, d, padding, was, written);
        if !fits {
          StopsThere(p, listing, idx, idx - start, padding, written, bytesLeft);
          written := written + bytes;
          isBufferFull := true;
          break;
        }
        GoesOn(p, listing, idx, idx - start, padding, written, bytesLeft);
        written := written + bytes;
        bytesLeft := bytesLeft - HEADER - |d.path|;
      }
      WroteAll(buffer[..], was, written);
      if isBufferFull {
        var _ := IterBack();
        return Ok(bufferLen);
      }
      EndsThere(p, listing, dirContentsIdx, dirContentsIdx - start, padding, written, bytesLeft);
      return Ok(bufferLen - bytesLeft);
    }

    /** The call as the module makes it: only the first may come with the start cookie, and it must. */
    method FdReaddir(buffer: array<byte>, startCookie: nat, padding: seq<byte>, host: seq<HostEnt>)
      returns (r: Result<nat, string>)
      requires Valid() && |padding| == 3
      modifies this, buffer
      ensures Valid()
      ensures r.Ok? <==> old(dirContentsLoaded) != (startCookie == 0) && (old(dirContentsLoaded) || host != [])
      ensures old(dirContentsLoaded) == (startCookie == 0) ==>
        buffer[..] == old(buffer[..]) && dirContentsIdx == old(dirContentsIdx)
        && dirContentsLoaded == old(dirContentsLoaded) && dirContents == old(dirContents)
      ensures r.Ok? ==> dirContents == if old(dirContentsLoaded) then old(dirContents) else Listing(host)
      ensures r.Ok? ==>
        dirContentsLoaded && dirContents == old(Contents(host))
        && CallAt(dirContents, padding, buffer[..], old(dirContentsIdx), dirContentsIdx)
        && r.value == Answer(dirContents, padding, buffer[..], old(dirContentsIdx))
    {
      if dirContentsLoaded && startCookie == 0 {
        return Err("EINVAL");
      }
      if !dirContentsLoaded && startCookie != 0 {
        return Err("No directory iterator exists, and this is not the start cookie");
      }
      r := CopyDirentsToWasiBuffer(buffer, padding, host);
      hide Fill;
    }
  }

  /** What is copied of an entry into the room there is. */
  function Copied(d: DirEnt, padding: seq<byte>, room: nat): (bytes: seq<byte>)
    requires |padding| == 3
    ensures |bytes| <= room
  {
    if room < HEADER then [] else if room < Size(d) then Header(d, padding) else Header(d, padding) + d.path
  }

  /** A call that has finished some entries has yet to do what a call on the rest of them does in the room left. */
  ghost predicate SoFar(
    p: Page, listing: seq<DirEnt>, idx: nat, taken: nat, padding: seq<byte>, written: seq<byte>, left: nat)
    requires |padding| == 3 && idx <= |listing|
  {
    var rest := Fill(listing[idx..], padding, left);
    p == Page(written + rest.written, taken + rest.taken, rest.full)
  }

  lemma StartsFrom(listing: seq<DirEnt>, idx: nat, padding: seq<byte>, room: nat)
    requires |padding| == 3 && idx <= |listing|
    ensures SoFar(Fill(listing[idx..], padding, room), listing, idx, 0, padding, [], room)
  {
  }

  lemma GoesOn(p: Page, listing: seq<DirEnt>, idx: nat, taken: nat, padding: seq<byte>, written: seq<byte>, left: nat)
    requires |padding| == 3 && idx < |listing| && left >= Size(listing[idx])
    requires SoFar(p, listing, idx, taken, padding, written, left)
    ensures var d := listing[idx];
      && |Copied(d, padding, left)| == Size(d)
      && SoFar(p, listing, idx + 1, taken + 1, padding, written + Copied(d, padding, left), left - Size(d))
  {
    hide Header, Fill;
    assert listing[idx..][1..] == listing[idx + 1..];
    FillStep(listing[idx..], padding, left);
  }

  lemma StopsThere(
    p: Page, listing: seq<DirEnt>, idx: nat, taken: nat, padding: seq<byte>, written: seq<byte>, left: nat)
    requires |padding| == 3 && idx < |listing| && left < Size(listing[idx])
    requires SoFar(p, listing, idx, taken, padding, written, left)
    ensures p == Page(written + Copied(listing[idx], padding, left), taken, true)
  {
    hide Header, Fill;
    FillStops(listing[idx..], padding, left);
  }

  lemma EndsThere(
    p: Page, listing: seq<DirEnt>, idx: nat, taken: nat, padding: seq<byte>, written: seq<byte>, left: nat)
    requires |padding| == 3 && idx == |listing| && SoFar(p, listing, idx, taken, padding, written, left)
    ensures p == Page(written, taken, false)
  {
  }

  ghost predicate Wrote(now: seq<byte>, was: seq<byte>, written: seq<byte>) {
    |written| <= |was| && now == written + was[|written|..]
  }

  lemma WroteNothing(was: seq<byte>)
    ensures Wrote(was, was, [])
  {
  }

  lemma WroteMore(before: seq<byte>, was: seq<byte>, written: seq<byte>, bytes: seq<byte>, now: seq<byte>)
    requires Wrote(before, was, written) && |written| + |bytes| <= |before|
    requires now == before[..|written|] + bytes + before[|written| + |bytes|..]
    ensures Wrote(now, was, written + bytes)
  {
    assert before[..|written|] == written;
    assert before[|written| + |bytes|..] == was[|written| + |bytes|..];
  }

  lemma WroteAll(now: seq<byte>, was: seq<byte>, written: seq<byte>)
    requires Wrote(now, was, written)
    ensures |written| <= |was| && now == written + was[|written|..]
    ensures written == [] ==> now == was
  {
  }

  /** Copies the header if there is room, and then the name if there is room, after what was written before. */
  method CopyDirent(
    buffer: array<byte>, bytesLeft: nat, d: DirEnt, padding: seq<byte>, ghost was: seq<byte>, ghost written: seq<byte>)
    returns (fits: bool)
    requires |padding| == 3 && Wrote(buffer[..], was, written) && |written| + bytesLeft == buffer.Length
    modifies buffer
    ensures fits <==> bytesLeft >= Size(d)
    ensures Wrote(buffer[..], was, written + Copied(d, padding, bytesLeft))
  {
    hide Header, Wrote;
    var at := buffer.Length - bytesLeft;
    if bytesLeft < HEADER {
      assert written + [] == written;
      return false;
    }
    var header := Header(d, padding);
    ghost var before := buffer[..];
    CopyBytes(buffer, at, header);
    WroteMore(before, was, written, header, buffer[..]);
    if bytesLeft - HEADER < |d.path| {
      return false;
    }
    before := buffer[..];
    CopyBytes(buffer, at + HEADER, d.path);
    WroteMore(before, was, written + header, d.path, buffer[..]);
    assert written + header + d.path == written + (header + d.path);
    return true;
  }

  method CopyBytes(buffer: array<byte>, at: nat, bytes: seq<byte>)
    requires at + |bytes| <= buffer.Length
    modifies buffer
    ensures buffer[..] == old(buffer[..])[..at] + bytes + old(buffer[..])[at + |bytes|..]
  {
    for k := 0 to |bytes|
      invariant forall i :: 0 <= i < buffer.Length ==>
        buffer[i] == if at <= i < at + k then bytes[i - at] else old(buffer[..])[i]
    {
      buffer[at + k] := bytes[k];
    }
  }
}
