/** `BleGattService`: a GATT server with one readable characteristic that serves the
    cached permit's JSON, as UTF-8, in chunks of at most 512 bytes addressed by
    offset; plus the advertiser and server handles that `onDestroy` releases. The
    Bluetooth stack is outside the model: its answers are method parameters and the
    calls made into it are recorded in order. */
module GattServer {
  import opened JavaLang
  import opened PermitData
  import opened PermitStore
  import Utf8

  const ServiceUuid := "12345678-1234-5678-1234-56789abcdef0"
  const PermitCharUuid := "12345678-1234-5678-1234-56789abcdef1"

  /** `BluetoothGatt.GATT_SUCCESS` and `BluetoothGatt.GATT_FAILURE`. */
  const GattSuccess := 0
  const GattFailure := 257

  /** The most bytes one read answer carries. */
  const MaxChunk := 512

  /** The arguments of one `sendResponse` call; a `None` value is Java's null. */
  datatype GattResponse = GattResponse(status: int, offset: int, value: Option<seq<byte>>)

  /** The bytes served for the permit characteristic: the cached permit's JSON, or
      the text "{}" when nothing is cached. */
  function Payload(stored: Option<Permit>, codec: Codec): (data: seq<byte>)
    ensures stored.Some? ==> data == Utf8.Encode(codec.toJson(stored.value))
    ensures stored.None? ==> data == Utf8.Encode("{}")
  {
    Utf8.Encode(if stored.Some? then codec.toJson(stored.value) else "{}")
  }

  /** With nothing cached the client reads the two bytes of "{}". */
  lemma {:induction false} EmptyCachePayload(codec: Codec)
    ensures Payload(None, codec) == [123, 125]
  {
    Utf8.EncodeAscii("{}");
  }

  /** The value answered for a read at `offset`: nothing at or past the end,
      otherwise the bytes from `offset` on, cut at 512. */
  function Chunk(data: seq<byte>, offset: nat): (r: seq<byte>)
    ensures |r| <= MaxChunk
    ensures offset >= |data| ==> r == []
    ensures offset < |data| ==> 0 < |r| && offset + |r| <= |data| && r == data[offset..offset + |r|]
    ensures offset < |data| ==> |r| == MaxChunk || offset + |r| == |data|
  {
    if offset >= |data| then [] else data[offset..offset + Min(|data| - offset, MaxChunk)]
  }

  /** What a client collects by reading at `offset`, `offset + 512`, … and stopping
      at the first answer shorter than 512 bytes: exactly the rest of the payload.
      (When the payload is a multiple of 512 long, the last answer is empty.) */
  function ReadFrom(data: seq<byte>, offset: nat): (r: seq<byte>)
    requires offset <= |data|
    ensures r == data[offset..]
    decreases |data| - offset
  {
    var c := Chunk(data, offset);
    if |c| < MaxChunk then c else c + ReadFrom(data, offset + MaxChunk)
  }

  /** `System.arraycopy(src, srcPos, dest, destPos, length)` between two distinct arrays. */
  method ArrayCopy(src: array<byte>, srcPos: nat, dest: array<byte>, destPos: nat, length: nat)
    requires src != dest
    requires srcPos + length <= src.Length && destPos + length <= dest.Length
    modifies dest
    ensures dest[..] == old(dest[..destPos]) + src[srcPos..srcPos + length] + old(dest[destPos + length..])
  {
    var i := 0;
    while i < length
      invariant 0 <= i <= length
      invariant dest[..destPos] == old(dest[..destPos])
      invariant dest[destPos..destPos + i] == src[srcPos..srcPos + i]
      invariant dest[destPos + length..] == old(dest[destPos + length..])
    {
      dest[destPos + i] := src[srcPos + i];
      i := i + 1;
    }
    assert dest[..] == dest[..destPos] + dest[destPos..destPos + length] + dest[destPos + length..];
  }

  /** The platform calls the service makes, in the order it makes them. */
  datatype ServerCall = OpenServer | AddService | StartAdvertising | StopAdvertising | CloseServer

  /** What `openGattServer` and `addService` do: open a server, return null, or throw
      a `SecurityException` from one of the two calls. */
  datatype OpenResult = Opened | OpenedNull | OpenDenied | AddServiceDenied

  /** The calls `onDestroy` makes: stop advertising only when there is an advertiser
      and the start was confirmed, then close the server only when there is one. */
  function TeardownCalls(hasAdvertiser: bool, isAdvertising: bool, hasServer: bool): (r: seq<ServerCall>)
    ensures StopAdvertising in r <==> hasAdvertiser && isAdvertising
    ensures CloseServer in r <==> hasServer
    ensures forall i :: 0 <= i < |r| ==> r[i] == StopAdvertising || r[i] == CloseServer
    ensures |r| == 2 ==> r == [StopAdvertising, CloseServer]
  {
    (if hasAdvertiser && isAdvertising then [StopAdvertising] else [])
    + (if hasServer then [CloseServer] else [])
  }

  class BleGattService {
    const repository: PermitRepository
    var hasAdvertiser: bool
    var hasServer: bool
    var isAdvertising: bool
    var calls: seq<ServerCall>

    /** `onCreate`: the service over the app's repository, with nothing started. */
    constructor (repository: PermitRepository)
      ensures this.repository == repository
      ensures !hasAdvertiser && !hasServer && !isAdvertising && calls == []
    {
      this.repository := repository;
      hasAdvertiser, hasServer, isAdvertising := false, false, false;
      calls := [];
    }

    /** `startBleServer` and `startAdvertising`. Nothing happens unless the adapter is
        enabled and the permissions are granted; the server handle is overwritten by
        whatever `openGattServer` returns; advertising is requested only once the
        service was added, and the advertiser handle is overwritten then. */
    method StartBleServer(adapterReady: bool, permitted: bool, open: OpenResult, advertiserAvailable: bool)
      modifies this
      ensures isAdvertising == old(isAdvertising)
      ensures !(adapterReady && permitted) ==> unchanged(this)
      ensures adapterReady && permitted ==>
        && hasServer == (if open == OpenDenied then old(hasServer) else open != OpenedNull)
        && hasAdvertiser == (if open == Opened then advertiserAvailable else old(hasAdvertiser))
        && calls == old(calls) + [OpenServer]
                    + (if open == Opened || open == AddServiceDenied then [AddService] else [])
                    + (if open == Opened && advertiserAvailable then [StartAdvertising] else [])
    {
      if !adapterReady || !permitted {
        return;
      }
      calls := calls + [OpenServer];
      if open == OpenDenied {
        return;
      }
      hasServer := open != OpenedNull;
      if !hasServer {
        return;
      }
      calls := calls + [AddService];
      if open == AddServiceDenied {
        return;
      }
      hasAdvertiser := advertiserAvailable;
      if hasAdvertiser {
        calls := calls + [StartAdvertising];
      }
    }

    /** `AdvertiseCallback.onStartSuccess`. */
    method OnStartSuccess()
      modifies this
      ensures isAdvertising
      ensures hasAdvertiser == old(hasAdvertiser) && hasServer == old(hasServer) && calls == old(calls)
    {
      isAdvertising := true;
    }

    /** `AdvertiseCallback.onStartFailure`. */
    method OnStartFailure()
      modifies this
      ensures !isAdvertising
      ensures hasAdvertiser == old(hasAdvertiser) && hasServer == old(hasServer) && calls == old(calls)
    {
      isAdvertising := false;
    }

    /** `onDestroy`: releases what is held; the handles themselves are not cleared. */
    method OnDestroy()
      modifies this
      ensures calls == old(calls) + TeardownCalls(hasAdvertiser, isAdvertising, hasServer)
      ensures hasAdvertiser == old(hasAdvertiser) && hasServer == old(hasServer)
      ensures isAdvertising == old(isAdvertising)
    {
      if hasAdvertiser && isAdvertising {
        calls := calls + [StopAdvertising];
      }
      if hasServer {
        calls := calls + [CloseServer];
      }
    }

    /** `onCharacteristicReadRequest`: the answer sent for a read of characteristic
        `uuid` at `offset`. It only reads the repository. */
    method OnCharacteristicReadRequest(uuid: string, offset: nat) returns (response: GattResponse)
      requires repository.Valid()
      ensures uuid != PermitCharUuid ==> response == GattResponse(GattFailure, 0, None)
      ensures uuid == PermitCharUuid ==>
        response == GattResponse(GattSuccess, offset,
                                 Some(Chunk(Payload(repository.GetPermit(), repository.codec), offset)))
    {
      if uuid != PermitCharUuid {
        response := GattResponse(GattFailure, 0, None);
        return;
      }
      var permit := repository.GetPermit();
      var json := if permit.Some? then repository.codec.toJson(permit.value) else "{}";
      var bytes := Utf8.Encode(json);
      var data := new byte[|bytes|](i requires 0 <= i < |bytes| => bytes[i]);
      if offset >= data.Length {
        response := GattResponse(GattSuccess, offset, Some([]));
        return;
      }
      var buffer := new byte[Min(data.Length - offset, MaxChunk)];
      ArrayCopy(data, offset, buffer, 0, buffer.Length);
      assert data[..] == bytes;
      assert buffer[..] == bytes[offset..offset + buffer.Length];
      response := GattResponse(GattSuccess, offset, Some(buffer[..]));
    }
  }

  /** Every chunk a reading client is answered with is a slice of the payload taken
      at that offset, so the answers at 0, 512, 1024, … rebuild the payload. */
  lemma {:induction false} ReadsRebuildPayload(stored: Option<Permit>, codec: Codec)
    ensures ReadFrom(Payload(stored, codec), 0) == Payload(stored, codec)
    ensures |Chunk(Payload(stored, codec), 0)| == Min(|Payload(stored, codec)|, MaxChunk)
  {
    var data := Payload(stored, codec);
    assert data[0..] == data;
  }
}
