/** The connection state shared between the worker and its owner
    (`is_connected`, `connection_lost_time`, `last_activity`) and the
    external reconnection probe `try_reconnect`. */
module Connection {
  import opened Common
  import opened Device

  datatype Conn = Conn(connected: bool, lostTime: Option<Time>, lastActivity: Time)

  /** A loss time is recorded exactly while the pad is disconnected. */
  predicate Inv(c: Conn) {
    c.connected == c.lostTime.None?
  }

  /** The state a freshly created controller starts in. */
  function Initial(now: Time): (c: Conn)
    ensures Inv(c) && c.connected
  {
    Conn(true, None, now)
  }

  /** Loss observed: disconnected, loss time stamped `now`. */
  function Lose(c: Conn, now: Time): (r: Conn)
    ensures Inv(r) && !r.connected
    ensures r.lostTime == Some(now) && r.lastActivity == c.lastActivity
  {
    c.(connected := false, lostTime := Some(now))
  }

  /** Reconnection observed: connected, loss time cleared, activity now. */
  function Restore(c: Conn, now: Time): (r: Conn)
    ensures Inv(r) && r.connected
    ensures r.lostTime == None && r.lastActivity == now
  {
    Conn(true, None, now)
  }

  /** What a fresh `Gilrs::new()` reports: it may fail, or it enumerates
      the pads, telling whether the original id is connected and which
      other pads are listed. */
  datatype Probe =
    | InitFailed
    | Enumerated(originalConnected: bool, listed: seq<PadId>)

  datatype Reconnected = Reconnected(ok: bool, conn: Conn)

  /** `try_reconnect`. Already connected: success, nothing changes. The
      original id present: the pad is restored. Otherwise, including a
      failed initialisation and other pads being listed, it fails and
      nothing changes; it never switches to another pad. */
  function TryReconnect(c: Conn, now: Time, probe: Probe): (r: Reconnected)
    ensures c.connected ==> r.ok && r.conn == c
    ensures !c.connected && probe.Enumerated? && probe.originalConnected ==>
              r.ok && r.conn == Restore(c, now)
    ensures !c.connected && !(probe.Enumerated? && probe.originalConnected) ==>
              !r.ok && r.conn == c
    ensures r.ok <==> r.conn.connected
    ensures Inv(c) ==> Inv(r.conn)
  {
    if c.connected then Reconnected(true, c)
    else
      match probe
      case InitFailed => Reconnected(false, c)
      case Enumerated(present, _) =>
        if present then Reconnected(true, Restore(c, now))
        else Reconnected(false, c)
  }

  /** Other listed pads never influence the outcome: with the original pad
      absent, enumerating any pads is the same as failing to enumerate. */
  lemma ReconnectIgnoresOtherPads(c: Conn, now: Time, listed: seq<PadId>)
    ensures TryReconnect(c, now, Enumerated(false, listed)) == TryReconnect(c, now, InitFailed)
  {
  }

  /** A second probe right after a successful one succeeds and changes
      nothing, whatever it finds. */
  lemma ReconnectIdempotent(c: Conn, now: Time, p1: Probe, later: Time, p2: Probe)
    requires TryReconnect(c, now, p1).ok
    ensures TryReconnect(TryReconnect(c, now, p1).conn, later, p2) == TryReconnect(c, now, p1)
  {
  }
}
