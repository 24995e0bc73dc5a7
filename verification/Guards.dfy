/** What the callbacks of the backhaul do with which frames, with every condition written out in the numbers of the
    protocol. */
module Guards {
  import opened Backhaul
  import opened Bytes
  import opened Mbuf
  import opened Wire

  /** A frame with another control word or a lower code is not for this protocol: at most the radio's timeout
      changes. */
  lemma OtherProtocolIgnored(s: State, f: RxFrame, env: Env)
    requires s.Valid() && (f.fctrl != 0x88C1 || f.head.code < 0x6003)
    ensures Step(s, Rx(f, env)) == s.(rxTimeout := Step(s, Rx(f, env)).rxTimeout)
  {
  }

  /** One of this protocol that is not for a bridge here, or too short, only wakes the listener. */
  lemma NotForUsWakes(s: State, f: RxFrame, env: Env)
    requires s.Valid() && f.fctrl == 0x88C1 && f.head.code >= 0x6003
    requires s.role != Bridge || (f.head.dst != s.myAddress && f.head.dst != 0xffff) || f.len < 39
    ensures Step(s, Rx(f, env)) ==
      s.(rxTimeout := Step(s, Rx(f, env)).rxTimeout, sem := if s.sem == 0 then 1 else s.sem)
  {
  }

  /** All the conditions on which a frame gets as far as the repeat filter. */
  lemma QualifiesIff(s: State, f: RxFrame)
    ensures Qualifies(s, f) <==>
      && f.fctrl == 0x88C1 && f.head.code >= 0x6003
      && (f.head.dst == s.myAddress || f.head.dst == 0xffff)
      && s.role == Bridge && f.len >= 39
  {
  }

  /** The filter compares source and number, and a repeat stops there. */
  lemma RepeatIgnored(s: State, f: RxFrame, env: Env)
    requires s.Valid() && f.fctrl == 0x88C1 && f.head.code >= 0x6003
    requires (f.head.dst == s.myAddress || f.head.dst == 0xffff) && s.role == Bridge && f.len >= 39
    requires f.head.src == s.lastAddress && f.head.seqNum == s.lastSeqNum
    ensures Step(s, Rx(f, env)) == s.(rxTimeout := Step(s, Rx(f, env)).rxTimeout)
  {
  }

  /** What the pool answers to a payload. */
  lemma IngestExact(s: State, data: seq<Byte>, env: Env)
    requires s.Valid()
    ensures var need, o := |Chunks(s.geo, data)|, Ingest(s, data, env);
      && (o.NoBlock? <==> s.free == 0 || env.grant == 0)
      && (o.Queued? <==> need <= s.free && need <= env.grant && env.putOk)
      && (o.PutFailed? <==> need <= s.free && need <= env.grant && !env.putOk)
      && (o.Queued? ==> o.chain == Chunks(s.geo, data))
      && (o.PutFailed? ==> o.taken == need)
      && (o.CopyFailed? ==> o.taken == if s.free <= env.grant then s.free else env.grant)
  {
  }

  /** A new frame is remembered whatever happens to it; then it is dropped for lack of a first block, keeps the
      blocks it got, or is queued, and in the first and the last case wakes the listener. */
  lemma NewFrame(s: State, f: RxFrame, env: Env)
    requires s.Valid() && f.fctrl == 0x88C1 && f.head.code >= 0x6003
    requires (f.head.dst == s.myAddress || f.head.dst == 0xffff) && s.role == Bridge && f.len >= 39
    requires f.head.src != s.lastAddress || f.head.seqNum != s.lastSeqNum
    ensures var t, need := Step(s, Rx(f, env)), |Chunks(s.geo, f.payload)|;
      var u := s.(rxTimeout := t.rxTimeout, lastAddress := f.head.src, lastSeqNum := f.head.seqNum);
      var sem := if s.sem == 0 then 1 else s.sem;
      var got := if s.free <= env.grant then s.free else env.grant;
      if got == 0 then t == u.(sem := sem)
      else if got < need then t == u.(free := s.free - got, kept := s.kept + got)
      else if !env.putOk then t == u.(free := s.free - need, kept := s.kept + need)
      else t == u.(free := s.free - need, queue := s.queue + [Chunks(s.geo, f.payload)], sem := sem)
  {
    IngestExact(s, f.payload, env);
  }

  /** Filter, pool and queue change only for frames that meet all the conditions, and the timeout only inside a
      listen. */
  lemma OnlyThen(s: State, f: RxFrame, env: Env)
    requires s.Valid()
    ensures var t := Step(s, Rx(f, env));
      && ((t.lastAddress, t.lastSeqNum) != (s.lastAddress, s.lastSeqNum) || t.free != s.free || t.kept != s.kept
          || t.queue != s.queue
          ==> && f.fctrl == 0x88C1 && f.head.code >= 0x6003
              && (f.head.dst == s.myAddress || f.head.dst == 0xffff)
              && s.role == Bridge && f.len >= 39
              && (f.head.src != s.lastAddress || f.head.seqNum != s.lastSeqNum))
      && (s.deadline == 0 ==> t.rxTimeout == s.rxTimeout)
      && t.printed == s.printed && t.listener == s.listener && t.deadline == s.deadline
  {
  }

  /** A finished transmission wakes an empty semaphore if it was of this protocol and no deadline is set, and does
      nothing else. */
  lemma TransmissionExact(s: State, fctrl: U16)
    requires s.Valid()
    ensures Step(s, Tx(fctrl)) == if fctrl == 0x88C1 && s.deadline == 0 && s.sem == 0 then s.(sem := 1) else s
  {
  }

  /** Inside a listen a reception of any frame sets the radio's timeout to the upper part of the time left, in 16
      bits. */
  lemma TimeoutSet(s: State, f: RxFrame, env: Env)
    requires s.Valid()
    ensures Step(s, Rx(f, env)).rxTimeout ==
      if s.deadline == 0 then s.rxTimeout
      else (s.deadline - f.timestamp) % 0x1_0000_0000_0000_0000 / 0x1_0000 % 0x1_0000
  {
  }

  /** The first half of a listen: each step, where it may be taken, and all that it changes. */
  lemma ListenBegins(s: State, start: U64, window: U16)
    requires s.Valid()
    ensures Enabled(s, Enter(start, window)) <==> s.listener == Idle
    ensures s.listener == Idle ==>
      Step(s, Enter(start, window)) == s.(listener := Entered, start := start, window := window)
    ensures Enabled(s, Acquire) <==> s.listener == Entered && s.sem > 0
    ensures s.listener == Entered && s.sem > 0 ==> Step(s, Acquire) == s.(listener := Acquired, sem := s.sem - 1)
    ensures Enabled(s, SetDeadline) <==> s.listener == Acquired
    ensures s.listener == Acquired ==>
      Step(s, SetDeadline)
        == s.(listener := Dated, deadline := (s.start + s.window * 0x1_0000) % 0x1_0000_0000_0000_0000)
    ensures Enabled(s, Arm) <==> s.listener == Dated
    ensures s.listener == Dated ==> Step(s, Arm) == s.(listener := Armed, rxTimeout := s.window)
  {
  }

  /** The second half. */
  lemma ListenEnds(s: State, error: bool)
    requires s.Valid()
    ensures Enabled(s, StartRx(error)) <==> s.listener == Armed
    ensures s.listener == Armed ==>
      Step(s, StartRx(error)) == s.(listener := Started, sem := s.sem + if error then 1 else 0)
    ensures Enabled(s, AcquireAgain) <==> s.listener == Started && s.sem > 0
    ensures s.listener == Started && s.sem > 0 ==> Step(s, AcquireAgain) == s.(listener := Woken, sem := s.sem - 1)
    ensures Enabled(s, Release) <==> s.listener == Woken
    ensures s.listener == Woken ==> Step(s, Release) == s.(listener := Released, sem := s.sem + 1)
    ensures Enabled(s, Disarm) <==> s.listener == Released
    ensures s.listener == Released ==> Step(s, Disarm) == s.(listener := Idle, deadline := 0)
  {
  }

  /** One turn of the drain loop. */
  lemma DrainExact(s: State)
    requires s.Valid() && s.queue != []
    ensures Step(s, DrainOne) ==
      s.(queue := s.queue[1..], free := s.free + |s.queue[0]|,
         printed := s.printed + if s.role == Bridge then [CopyOut(Join(s.queue[0]))] else [])
  {
    assert s.printed + [] == s.printed;
  }

  /** The device at power-up. */
  lemma PowerUp(geo: Geometry, numBlocks: nat, address: U16)
    ensures var s := Initial(geo, numBlocks, address);
      && s.role == Invalid && s.myAddress == address && s.sem == 1 && s.listener == Idle && s.deadline == 0
      && s.lastAddress == 0 && s.lastSeqNum == 0
      && s.free == numBlocks && s.queue == [] && s.kept == 0 && s.printed == []
  {
  }
}
