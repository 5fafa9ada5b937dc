/**
  `serverStream` (internal/server/stream.go) in its own form. Each method runs under the stream's
  lock from start to end; whether its write succeeds is a parameter.
 */
module ServerStreamCode {
  import opened Frames
  import opened MetadataCodec
  import SS = ServerStreams

  class ServerStream {
    const id: nat
    const fullMethod: string
    const src: string
    const dst: string
    var headers: seq<Metadata>
    var headersSent: bool
    var trailers: seq<Metadata>
    var trailersSent: bool
    ghost var written: seq<Rpc>

    ghost function State(): SS.State
      reads this
    {
      SS.State(id, fullMethod, src, dst, headers, headersSent, trailers, trailersSent, written)
    }

    constructor (id: nat, fullMethod: string, src: string, dst: string)
      ensures State() == SS.Fresh(id, fullMethod, src, dst)
    {
      this.id, this.fullMethod, this.src, this.dst := id, fullMethod, src, dst;
      headers, headersSent, trailers, trailersSent, written := [], false, [], false, [];
    }

    /** A frame without header metadata, status, body or trailer. */
    function Blank(): Rpc
      reads this
    {
      Rpc(id, Some(RequestHeader(fullMethod, [], src, dst, [], None)), None, None, None, None)
    }

    /** The write of a frame. */
    method Write(rpc: Rpc, writeOk: bool)
      modifies this`written
      ensures written == if writeOk then old(written) + [rpc] else old(written)
    {
      if writeOk {
        written := written + [rpc];
      }
    }

    /** `setHeader`: without `send` it only collects. */
    method PutHeader(md: Metadata, send: bool, writeOk: bool) returns (accepted: bool, ghost call: SS.Call)
      modifies this
      ensures if send then call.SendHeader? && call.md == md else call == SS.SetHeader(md)
      ensures SS.Legal(old(State()), call)
      ensures State() == SS.Apply(old(State()), call, writeOk)
      ensures accepted == SS.Accepted(old(State()), call, writeOk)
      ensures accepted <==> !old(headersSent) && (send ==> writeOk)
    {
      hide Encodes;
      call := if send then SS.SendHeader(md, []) else SS.SetHeader(md);
      if headersSent {
        return false, call;
      }
      headers := headers + [md];
      if !send {
        return true, call;
      }
      var kvs := ToKeyValue(headers);
      call := SS.SendHeader(md, kvs);
      var blank := Blank();
      Write(blank.(header := Some(blank.header.value.(headers := kvs))), writeOk);
      headersSent := writeOk;
      accepted := writeOk;
    }

    /** `SendMsg` of a message that marshals to `body`; `None` is a message that does not, and changes nothing. */
    method SendMsg(marshalled: Option<Body>, writeOk: bool) returns (accepted: bool, ghost call: SS.Call)
      modifies this
      ensures marshalled.None? ==> State() == old(State()) && !accepted
      ensures marshalled.Some? ==>
                && call.SendMsg? && call.body == marshalled.value && SS.Legal(old(State()), call)
                && State() == SS.Apply(old(State()), call, writeOk)
                && accepted == SS.Accepted(old(State()), call, writeOk) == writeOk
    {
      hide Encodes;
      if marshalled.None? {
        return false, SS.SetHeader(map[]);
      }
      var body := marshalled.value;
      var rpc := Blank();
      rpc := rpc.(body := Some(body));
      call := SS.SendMsg(body, []);
      if !headersSent {
        var kvs := ToKeyValue(headers);
        call := SS.SendMsg(body, kvs);
        rpc := rpc.(header := Some(rpc.header.value.(headers := kvs)));
        headersSent := true;
      }
      Write(rpc, writeOk);
      accepted := writeOk;
    }

    method SetTrailer(md: Metadata)
      modifies this
      ensures State() == SS.Apply(old(State()), SS.SetTrailer(md), true)
    {
      if trailersSent {
        return;
      }
      trailers := trailers + [md];
    }

    method SendTrailer(result: Option<Status>, writeOk: bool) returns (accepted: bool, ghost call: SS.Call)
      modifies this
      ensures call.SendTrailer? && call.result == result
      ensures SS.Legal(old(State()), call)
      ensures State() == SS.Apply(old(State()), call, writeOk)
      ensures accepted == SS.Accepted(old(State()), call, writeOk)
      ensures accepted <==> !old(trailersSent) && writeOk
    {
      hide Encodes;
      call := SS.SendTrailer(result, [], []);
      if trailersSent {
        return false, call;
      }
      trailersSent := true;
      var trailerKvs := ToKeyValue(trailers);
      call := SS.SendTrailer(result, [], trailerKvs);
      var rpc := Blank();
      rpc := rpc.(status := Some(Status(CODE_OK, "OK", [])), trailer := Some(Trailer(trailerKvs)));
      if !headersSent {
        var kvs := ToKeyValue(headers);
        call := SS.SendTrailer(result, kvs, trailerKvs);
        rpc := rpc.(header := Some(rpc.header.value.(headers := kvs)));
        headersSent := true;
      }
      if result.Some? {
        var st := result.value;
        if st.code == CODE_OK {
          st := st.(code := CODE_INTERNAL);
        }
        rpc := rpc.(status := Some(st));
      }
      Write(rpc, writeOk);
      accepted := writeOk;
    }
  }
}
