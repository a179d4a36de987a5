/** The candidate pair as an object: each method does to the fields what the state functions say. */
module IceConnections {
  import opened Base
  import opened ConnectionState

  class IceConnection {
    var remoteUser: seq<byte>
    var remotePwd: seq<byte>
    var localPriority: u32
    var remotePriority: u32
    var writeState: WriteState
    var receiving: bool
    var lastPingSent: int
    var numPingsSent: nat
    var pings: seq<SentPing>
    var lastPingResponse: int
    var lastPingReceived: int
    var lastDataReceived: int
    var rtt: int
    var rttSamples: nat
    var selected: bool
    var state: PairState

    function View(): Conn
      reads this
    {
      Conn(remoteUser, remotePwd, localPriority, remotePriority, writeState, receiving, lastPingSent, numPingsSent,
           pings, lastPingResponse, lastPingReceived, lastDataReceived, rtt, rttSamples, selected, state)
    }

    constructor (user: seq<byte>, pwd: seq<byte>, localPriority: u32, remotePriority: u32)
      ensures View() == NewConn(user, pwd, localPriority, remotePriority)
    {
      remoteUser, remotePwd := user, pwd;
      this.localPriority, this.remotePriority := localPriority, remotePriority;
      writeState, receiving := StateInit, false;
      lastPingSent, numPingsSent, pings := 0, 0, [];
      lastPingResponse, lastPingReceived, lastDataReceived := 0, 0, 0;
      rtt, rttSamples := 3000, 0;
      selected, state := false, Waiting;
    }

    method SetSelected(on: bool)
      modifies this
      ensures View() == old(View()).(selected := on)
    {
      selected := on;
    }

    method SetState(s: PairState)
      modifies this
      ensures View() == old(View()).(state := s)
    {
      state := s;
    }

    method MaybeSetRemoteParams(user: seq<byte>, pwd: seq<byte>)
      modifies this
      ensures View() == ConnectionState.MaybeSetRemoteParams(old(View()), user, pwd)
    {
      if remoteUser == user && remotePwd == [] {
        remotePwd := pwd;
      }
    }

    method Ping(id: seq<byte>, now: int)
      modifies this
      ensures View() == ConnectionState.Ping(old(View()), id, now)
    {
      lastPingSent := now;
      pings := pings + [SentPing(id, now)];
      state := InProgress;
      numPingsSent := numPingsSent + 1;
    }

    /** `signal` asks the caller to run the slot of the state-change signal before anything else. */
    method UpdateReceiving(now: int) returns (signal: bool)
      modifies this
      ensures View() == ConnectionState.UpdateReceiving(old(View()), now)
      ensures signal <==> receiving != old(receiving)
    {
      var r: bool;
      if lastPingSent < lastPingResponse {
        r := true;
      } else {
        var last := LastReceived(View());
        r := last > 0 && now < last + WEAK_CONNECTION_RECEIVE_TIMEOUT;
      }
      if receiving == r {
        return false;
      }
      receiving := r;
      return true;
    }

    method SetWriteState(w: WriteState) returns (signal: bool)
      modifies this
      ensures View() == old(View()).(writeState := w)
      ensures signal <==> w != old(writeState)
    {
      var was := writeState;
      writeState := w;
      return was != w;
    }

    /** The record keeping of an answered ping, before the first signal. */
    method NoteResponse(sample: int, now: int, average: Average)
      modifies this
      ensures View() == ConnectionState.NoteResponse(old(View()), sample, now, average)
    {
      if rttSamples > 0 {
        rtt := average(rtt, sample, RTT_RATIO);
      } else {
        rtt := sample;
      }
      rttSamples := rttSamples + 1;
      lastPingResponse := now;
      pings := [];
    }

    /** The first half of the periodic update: a writable connection whose pings fail. */
    method Degrade(now: int) returns (signal: bool)
      modifies this
      ensures View() == ConnectionState.Degrade(old(View()), now)
      ensures signal <==> writeState != old(writeState)
    {
      var allowance := 2 * rtt;
      if allowance < MIN_RTT {
        allowance := MIN_RTT;
      } else {
        allowance := MAX_RTT;
      }
      signal := false;
      if writeState == StateWritable
         && TooManyPingFails(View(), CONNECTION_WRITE_CONNECT_FAILS, allowance, now)
         && TooLongWithoutResponse(View(), CONNECTION_WRITE_CONNECT_TIMEOUT, now) {
        signal := SetWriteState(StateUnreliable);
      }
    }

    /** The second half: a connection that is not writable and stays silent. */
    method Expire(now: int) returns (signal: bool)
      modifies this
      ensures View() == ConnectionState.Expire(old(View()), now)
      ensures signal <==> writeState != old(writeState)
    {
      signal := false;
      if (writeState == StateUnreliable || writeState == StateInit)
         && TooLongWithoutResponse(View(), CONNECTION_WRITE_TIMEOUT, now) {
        signal := SetWriteState(StateTimeout);
      }
    }
  }
}
