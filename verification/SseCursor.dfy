/**
 `frb_generated.rs` on its cursors: the serializer's growing buffer, and the deserializer's unread
 bytes. A panic is a result of none.
 */
module SseCursor {
  import opened Wrappers
  import opened SseCodec
  import opened SnapshotCodec

  class SseSerializer {
    var buffer: Bytes

    constructor ()
      ensures buffer == []
    {
      buffer := [];
    }

    /** A record or a scalar, by its encoder. */
    method Encode<T(!new)>(enc: (T, Bytes) -> Bytes, v: T)
      modifies this
      ensures buffer == old(buffer) + enc(v, [])
    {
      buffer := buffer + enc(v, []);
    }

    method EncodeOption<T(!new)>(enc: (T, Bytes) -> Bytes, v: Option<T>)
      modifies this
      ensures buffer == old(buffer) + EncOption(enc, v, [])
    {
      Encode(EncBool, v.Some?);
      if v.Some? {
        BoolLaw();
        LawfulAppends(EncBool, DecBool, Same, Always);
        ghost var before := old(buffer);
        Ahead(EncBool, true, before, buffer, enc(v.value, []));
        Encode(enc, v.value);
      }
    }

    /** The length cast to 32 bits, then the items in order. */
    method EncodeVec<T(!new)>(enc: (T, Bytes) -> Bytes, items: seq<T>)
      requires Appends(enc)
      modifies this
      ensures buffer == old(buffer) + EncVec(enc, items, [])
    {
      Encode(EncI32, AsI32(|items|));
      for i := 0 to |items|
        invariant buffer == old(buffer) + EncI32(AsI32(|items|), EncItems(enc, items[..i], []))
      {
        OneMore(enc, items, i);
        Encode(enc, items[i]);
      }
      assert items[..|items|] == items;
    }

    method EncodeSnapshot(v: SnapshotDto)
      modifies this
      ensures buffer == old(buffer) + EncSnapshotDto(v, [])
    {
      hide EncVec, EncOption, EncServerStatus, EncText, Appends;
      ElementLaws();
      ghost var all := old(buffer) + EncSnapshotDto(v, []);
      ghost var startup := EncText(v.startupWorkspace, []);
      ghost var main := EncOption(EncWorkspaceDef, v.mainWorkspace, startup);
      ghost var workspaces := EncVec(EncWorkspaceDef, v.workspaces, main);
      ghost var server := EncServerStatus(v.server, workspaces);
      ghost var operations := EncVec(EncOperationStatusDto, v.operations, server);
      ghost var pulls := EncVec(EncProjectPullDto, v.projectPull, operations);
      ghost var pending := EncVec(EncSessionId, v.pendingCommentSessions, pulls);
      ghost var paused := EncOption(EncSessionId, v.cascadePaused, pending);
      ghost var sessions := EncVec(EncSessionInfo, v.sessions, paused);
      ghost var before := buffer;
      EncodeVec(EncProjectInfoDto, v.projects);
      AheadVec(EncProjectInfoDto, v.projects, before, buffer, sessions);
      before := buffer;
      EncodeVec(EncSessionInfo, v.sessions);
      AheadVec(EncSessionInfo, v.sessions, before, buffer, paused);
      before := buffer;
      EncodeOption(EncSessionId, v.cascadePaused);
      AheadOption(EncSessionId, v.cascadePaused, before, buffer, pending);
      before := buffer;
      EncodeVec(EncSessionId, v.pendingCommentSessions);
      AheadVec(EncSessionId, v.pendingCommentSessions, before, buffer, pulls);
      before := buffer;
      EncodeVec(EncProjectPullDto, v.projectPull);
      AheadVec(EncProjectPullDto, v.projectPull, before, buffer, operations);
      before := buffer;
      EncodeVec(EncOperationStatusDto, v.operations);
      AheadVec(EncOperationStatusDto, v.operations, before, buffer, server);
      before := buffer;
      Encode(EncServerStatus, v.server);
      Ahead(EncServerStatus, v.server, before, buffer, workspaces);
      before := buffer;
      EncodeVec(EncWorkspaceDef, v.workspaces);
      AheadVec(EncWorkspaceDef, v.workspaces, before, buffer, main);
      before := buffer;
      EncodeOption(EncWorkspaceDef, v.mainWorkspace);
      AheadOption(EncWorkspaceDef, v.mainWorkspace, before, buffer, startup);
      Encode(EncText, v.startupWorkspace);
      assert buffer == all;
    }
  }

  /** A piece in the buffer and the rest still to come, or the piece in front of the rest. */
  lemma Ahead<T(!new)>(enc: (T, Bytes) -> Bytes, v: T, before: Bytes, after: Bytes, rest: Bytes)
    requires Appends(enc) && after == before + enc(v, [])
    ensures after + rest == before + enc(v, rest)
  {
    assert [] + rest == rest;
    assert enc(v, [] + rest) == enc(v, []) + rest;
  }

  lemma AheadOption<T(!new)>(enc: (T, Bytes) -> Bytes, v: Option<T>, before: Bytes, after: Bytes, rest: Bytes)
    requires Appends(enc) && after == before + EncOption(enc, v, [])
    ensures after + rest == before + EncOption(enc, v, rest)
  {
    assert [] + rest == rest;
    if v.Some? {
      assert enc(v.value, [] + rest) == enc(v.value, []) + rest;
    }
    var _ := BoolCodec(v.Some?, if v.Some? then enc(v.value, []) else [], rest);
  }

  lemma AheadVec<T(!new)>(enc: (T, Bytes) -> Bytes, vs: seq<T>, before: Bytes, after: Bytes, rest: Bytes)
    requires Appends(enc) && after == before + EncVec(enc, vs, [])
    ensures after + rest == before + EncVec(enc, vs, rest)
  {
    assert [] + rest == rest;
    ItemsAppend(enc, vs, [], rest);
    var _ := I32Codec(AsI32(|vs|), EncItems(enc, vs, []), rest);
  }

  /** Another item at the end of the items written. */
  lemma {:induction false} OneMore<T(!new)>(enc: (T, Bytes) -> Bytes, items: seq<T>, i: nat)
    requires Appends(enc) && i < |items|
    ensures var len := AsI32(|items|);
            EncI32(len, EncItems(enc, items[..i], [])) + enc(items[i], []) ==
            EncI32(len, EncItems(enc, items[..i + 1], []))
  {
    var item := enc(items[i], []);
    assert items[..i + 1][..i] == items[..i];
    assert [] + item == item;
    ItemsAppend(enc, items[..i], [], item);
    var _ := I32Codec(AsI32(|items|), EncItems(enc, items[..i], []), item);
  }

  /** The codecs that the fields of a snapshot use. */
  lemma ElementLaws()
    ensures Appends(EncProjectInfoDto) && Appends(EncSessionInfo) && Appends(EncSessionId)
    ensures Appends(EncProjectPullDto) && Appends(EncOperationStatusDto) && Appends(EncWorkspaceDef)
    ensures Appends(EncServerStatus) && Appends(EncText)
  {
    hide Lawful, Appends;
    ProjectInfoDtoLaw();
    LawfulAppends(EncProjectInfoDto, DecProjectInfoDto, Same, ProjectInfoDtoFits);
    SessionInfoLaw();
    LawfulAppends(EncSessionInfo, DecSessionInfo, NormSessionInfo, SessionInfoFits);
    SessionIdLaw();
    LawfulAppends(EncSessionId, DecSessionId, Same, Always);
    ProjectPullDtoLaw();
    LawfulAppends(EncProjectPullDto, DecProjectPullDto, Same, Always);
    OperationStatusDtoLaw();
    LawfulAppends(EncOperationStatusDto, DecOperationStatusDto, NormOperationStatusDto, OperationStatusDtoFits);
    WorkspaceDefLaw();
    LawfulAppends(EncWorkspaceDef, DecWorkspaceDef, Same, WorkspaceDefFits);
    ServerStatusLaw();
    LawfulAppends(EncServerStatus, DecServerStatus, Same, ServerStatusFits);
    TextLaw();
    LawfulAppends(EncText, DecText, Same, TextFits);
  }

  /** The method answered and moved the cursor as the reader says. */
  ghost predicate Follows<T>(r: Option<T>, unread: Bytes, read: Option<Read<T>>) {
    match read
    case None => r == None
    case Some(done) => r == Some(done.value) && unread == done.rest
  }

  class SseDeserializer {
    var unread: Bytes

    constructor (data: Bytes)
      ensures unread == data
    {
      unread := data;
    }

    /** A record or a scalar, by its reader. */
    method Decode<T>(dec: Bytes -> Option<Read<T>>) returns (r: Option<T>)
      modifies this
      ensures Follows(r, unread, dec(old(unread)))
    {
      var read := dec(unread);
      if read == None {
        return None;
      }
      r := Some(read.value.value);
      unread := read.value.rest;
    }

    method DecodeOption<T>(dec: Bytes -> Option<Read<T>>) returns (r: Option<Option<T>>)
      modifies this
      ensures Follows(r, unread, DecOption(dec, old(unread)))
    {
      var some :- Decode(DecBool);
      if some {
        var v :- Decode(dec);
        return Some(Some(v));
      } else {
        return Some(None);
      }
    }

    /** The counted loop: a length, then so many items. */
    method DecodeVec<T>(dec: Bytes -> Option<Read<T>>) returns (r: Option<seq<T>>)
      modifies this
      ensures Follows(r, unread, DecVec(dec, old(unread)))
    {
      var len :- Decode(DecI32);
      ghost var items := unread;
      var ans: seq<T> := [];
      var i := 0;
      while i < len
        invariant 0 <= i && (i <= len || (len < 0 && i == 0))
        invariant DecItems(dec, items, i) == Some(Read(ans, unread))
      {
        FailsEarly(dec, items, i + 1, len);
        var item :- Decode(dec);
        ans := ans + [item];
        i := i + 1;
      }
      return Some(ans);
    }

    method DecodeSnapshot() returns (r: Option<SnapshotDto>)
      modifies this
      ensures Follows(r, unread, DecSnapshotDto(old(unread)))
    {
      hide DecVec, DecOption, DecServerStatus, DecText;
      var projects :- DecodeVec(DecProjectInfoDto);
      var sessions :- DecodeVec(DecSessionInfo);
      var cascadePaused :- DecodeOption(DecSessionId);
      var pendingCommentSessions :- DecodeVec(DecSessionId);
      var projectPull :- DecodeVec(DecProjectPullDto);
      var operations :- DecodeVec(DecOperationStatusDto);
      var server :- Decode(DecServerStatus);
      var workspaces :- DecodeVec(DecWorkspaceDef);
      var mainWorkspace :- DecodeOption(DecWorkspaceDef);
      var startupWorkspace :- Decode(DecText);
      return Some(SnapshotDto(projects, sessions, cascadePaused, pendingCommentSessions, projectPull, operations,
                              server, workspaces, mainWorkspace, startupWorkspace));
    }
  }

  /** A vector whose first items cannot be read cannot be read. */
  lemma {:induction false} FailsEarly<T>(dec: Bytes -> Option<Read<T>>, bytes: Bytes, n: nat, m: nat)
    requires n <= m
    ensures DecItems(dec, bytes, n) == None ==> DecItems(dec, bytes, m) == None
    decreases m
  {
    if n < m {
      FailsEarly(dec, bytes, n, m - 1);
    }
  }

  /** One snapshot over the wire, with other bytes after it. */
  method Transfer(v: SnapshotDto, tail: Bytes) returns (r: Option<SnapshotDto>, unread: Bytes)
    ensures SnapshotDtoFits(v) ==> r == Some(NormSnapshotDto(v)) && unread == tail
    ensures r == Some(NormSnapshotDto(v)) ==> SnapshotDtoFits(v)
  {
    hide EncSnapshotDto, DecSnapshotDto, NormSnapshotDto, SnapshotDtoFits;
    var serializer := new SseSerializer();
    serializer.EncodeSnapshot(v);
    assert [] + EncSnapshotDto(v, []) == EncSnapshotDto(v, []);
    var deserializer := new SseDeserializer(serializer.buffer + tail);
    SnapshotRoundTrip(v, tail);
    r := deserializer.DecodeSnapshot();
    unread := deserializer.unread;
  }
}
