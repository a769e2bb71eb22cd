/** Collaboration room names: the printer and parser of persistence.go. */
module RoomNames {

  import opened Wrappers
  import opened Decimal

  const MAX_INT32: int := 0x7fff_ffff

  datatype RoomIdentity = RoomIdentity(musicId: int, epoch: int)

  predicate ValidIdentity(identity: RoomIdentity) {
    0 < identity.musicId <= MAX_INT32 && 0 < identity.epoch <= MAX_INT64
  }

  function RoomName(musicId: int, epoch: int): string {
    "lyrics-" + Itoa(musicId) + "-e" + Itoa(epoch)
  }

  /** The pattern lyrics-([1-9][0-9]*)-e([1-9][0-9]*), then the two range checks. */
  function ParseRoom(room: string): Option<RoomIdentity> {
    if "lyrics-" <= room then ParseNumbers(room[7..]) else None
  }

  function ParseNumbers(tail: string): Option<RoomIdentity> {
    var n := DigitSpan(tail);
    if n == 0 || tail[0] == '0' || !("-e" <= tail[n..]) then None
    else
      var last := tail[n + 2..];
      if last == [] || !AllDigits(last) || last[0] == '0' then None
      else
        var identity := RoomIdentity(Value(tail[..n]), Value(last));
        if ValidIdentity(identity) then Some(identity) else None
  }

  lemma ParseOfParts(m: string, e: string)
    requires Canonical(m) && Canonical(e) && m[0] != '0' && e[0] != '0'
    ensures ParseNumbers(m + "-e" + e)
         == var identity := RoomIdentity(Value(m), Value(e));
            if ValidIdentity(identity) then Some(identity) else None
  {
    var tail := m + "-e" + e;
    assert tail[..|m|] == m;
    DigitSpanUnique(tail, |m|);
    assert tail[|m|..] == "-e" + e;
    assert ("-e" + e)[..2] == "-e";
    assert tail[|m| + 2..] == e;
  }

  lemma ParseOfRoomName(musicId: int, epoch: int)
    requires ValidIdentity(RoomIdentity(musicId, epoch))
    ensures ParseRoom(RoomName(musicId, epoch)) == Some(RoomIdentity(musicId, epoch))
  {
    var m, e := Format(musicId), Format(epoch);
    var room := RoomName(musicId, epoch);
    assert room[..7] == "lyrics-" && room[7..] == m + "-e" + e;
    ParseOfParts(m, e);
    ValueOfFormat(musicId);
    ValueOfFormat(epoch);
  }

  /** No other identity has a name that can be read. */
  lemma ParseOfAnyRoomName(musicId: int, epoch: int)
    ensures var identity := RoomIdentity(musicId, epoch);
            ParseRoom(RoomName(musicId, epoch)) == if ValidIdentity(identity) then Some(identity) else None
  {
    var m, e := Itoa(musicId), Itoa(epoch);
    var room, tail := RoomName(musicId, epoch), m + "-e" + e;
    assert room[..7] == "lyrics-" && room[7..] == tail;
    if musicId <= 0 {
      assert musicId == 0 ==> m == "0";
      assert tail[0] == m[0];
      if musicId < 0 {
        DigitSpanUnique(tail, 0);
      }
    } else if epoch <= 0 {
      assert tail[..|m|] == m;
      DigitSpanUnique(tail, |m|);
      assert tail[|m| + 2..] == e && e[0] == if epoch == 0 then '0' else '-';
    } else {
      ParseOfParts(m, e);
      ValueOfFormat(musicId);
      ValueOfFormat(epoch);
    }
  }

  lemma NumbersOfParsed(tail: string)
    requires ParseNumbers(tail).Some?
    ensures var identity := ParseNumbers(tail).value;
            ValidIdentity(identity) && tail == Format(identity.musicId) + "-e" + Format(identity.epoch)
  {
    var n := DigitSpan(tail);
    var m, e := tail[..n], tail[n + 2..];
    assert m[0] == tail[0];
    FormatOfValue(m);
    FormatOfValue(e);
    assert tail[n..][..2] == "-e";
    assert tail == m + tail[n..][..2] + e;
  }

  lemma RoomNameParts(musicId: int, epoch: int)
    ensures RoomName(musicId, epoch) == "lyrics-" + (Itoa(musicId) + "-e" + Itoa(epoch))
  {
    assert "lyrics-" + (Itoa(musicId) + "-e" + Itoa(epoch)) == "lyrics-" + Itoa(musicId) + "-e" + Itoa(epoch);
  }

  lemma RoomNameOfParsed(room: string)
    requires ParseRoom(room).Some?
    ensures var identity := ParseRoom(room).value; ValidIdentity(identity) && room == RoomName(identity.musicId, identity.epoch)
  {
    var identity := ParseRoom(room).value;
    NumbersOfParsed(room[7..]);
    RoomNameParts(identity.musicId, identity.epoch);
    assert room == "lyrics-" + room[7..];
  }

  /** A room name parses exactly when it is the printed name of a valid
      identity, so two accepted names of one identity are the same string. */
  lemma ParseExactlyRoomNames(room: string, identity: RoomIdentity)
    ensures ParseRoom(room) == Some(identity)
       <==> ValidIdentity(identity) && room == RoomName(identity.musicId, identity.epoch)
  {
    if ParseRoom(room) == Some(identity) {
      RoomNameOfParsed(room);
    }
    if ValidIdentity(identity) && room == RoomName(identity.musicId, identity.epoch) {
      ParseOfRoomName(identity.musicId, identity.epoch);
    }
  }
}
