/**
 * The development plugin's pure and stateful core: `chunkFromId`, the CSS
 * rewrite in `transform`, and the watcher handlers that keep the
 * `fileHashes` table and broadcast changes to the open sockets. File
 * hashing is an input: each handler receives the hash its file has now.
 */
module ViteSpaDev {
  import opened StringOps

  /** `indexOf`: the first position of `x`, or -1. */
  function IndexOf(parts: seq<string>, x: string): (r: int)
    ensures -1 <= r < |parts|
    ensures r == -1 <==> x !in parts
    ensures r >= 0 ==> parts[r] == x && forall j :: 0 <= j < r ==> parts[j] != x
  {
    if |parts| == 0 then -1
    else if parts[0] == x then 0
    else
      var k := IndexOf(parts[1..], x);
      if k == -1 then -1 else k + 1
  }

  /** A relative `slice` index: negative counts from the end; the result is clamped to the sequence. */
  function SliceIndex(i: int, n: nat): (r: nat)
    ensures r <= n
  {
    if i < 0 then (if n + i < 0 then 0 else n + i) else if i > n then n else i
  }

  /** `Array.prototype.slice(start, end)`. */
  function Slice<T>(s: seq<T>, start: int, end: int): seq<T> {
    var a := SliceIndex(start, |s|);
    var b := SliceIndex(end, |s|);
    if a < b then s[a..b] else []
  }

  /** The three `replaceAll(…, '')` calls, in order. */
  function StripExtensions(s: string): string {
    RemoveAll(RemoveAll(RemoveAll(s, ".tsx"), ".ts"), ".js")
  }

  /** `chunkFromId`. */
  function ChunkFromId(id: string): string {
    var parts := Split(id, '/');
    StripExtensions(Join(Slice(parts, IndexOf(parts, "src"), |parts| + 1), "_"))
  }

  /**
   * The chunk keeps the path segments from the first `src` onward, or only
   * the last segment when there is no `src`, joined by '_' and with the
   * extensions removed.
   */
  lemma ChunkFromIdSegments(id: string)
    ensures var parts := Split(id, '/');
            var k := if "src" in parts then IndexOf(parts, "src") else |parts| - 1;
            0 <= k < |parts| && ChunkFromId(id) == StripExtensions(Join(parts[k..], "_"))
  {
    var parts := Split(id, '/');
    var k := IndexOf(parts, "src");
    assert Slice(parts, k, |parts| + 1) == parts[(if k == -1 then |parts| - 1 else k)..];
  }

  /** `code.split('\n')`, line by line: the two theme selectors are scoped to the extension. */
  function RewriteLine(line: string, name: string): (r: string)
    ensures line == ":root {" ==> r == "#" + name + " {"
    ensures line == ".dark {" ==> r == ".dark #" + name + " {"
    ensures line != ":root {" && line != ".dark {" ==> r == line
  {
    if line == ":root {" then "#" + name + " {"
    else if line == ".dark {" then ".dark #" + name + " {"
    else line
  }

  /** The rewritten lines: one per input line, in order. */
  function RewriteLines(lines: seq<string>, name: string): (r: seq<string>)
    ensures |r| == |lines|
    ensures forall i :: 0 <= i < |lines| ==> r[i] == RewriteLine(lines[i], name)
  {
    seq(|lines|, i requires 0 <= i < |lines| => RewriteLine(lines[i], name))
  }

  /** The CSS branch of `transform`: push each rewritten line, then join with newlines. */
  method CssTransform(code: string, name: string) returns (out: string)
    ensures out == Join(RewriteLines(Split(code, '\n'), name), "\n")
  {
    var lines := Split(code, '\n');
    var transformed: seq<string> := [];
    var i := 0;
    while i < |lines|
      invariant 0 <= i <= |lines|
      invariant transformed == RewriteLines(lines[..i], name)
    {
      var newLine := lines[i];
      if lines[i] == ":root {" {
        newLine := "#" + name + " {";
      }
      if lines[i] == ".dark {" {
        newLine := ".dark #" + name + " {";
      }
      transformed := transformed + [newLine];
      i := i + 1;
    }
    assert lines[..i] == lines;
    out := Join(transformed, "\n");
  }

  /** A stylesheet without either theme selector line comes out unchanged. */
  lemma CssWithoutSelectorsUnchanged(code: string, name: string)
    requires forall i :: 0 <= i < |Split(code, '\n')| ==> Split(code, '\n')[i] != ":root {" && Split(code, '\n')[i] != ".dark {"
    ensures Join(RewriteLines(Split(code, '\n'), name), "\n") == code
  {
    var lines := Split(code, '\n');
    assert RewriteLines(lines, name) == lines;
    JoinSplit(code, '\n');
  }

  /** What `transform` returns: the rewritten stylesheet, the code with the reload client appended, or the code as it was. */
  datatype TransformOutput = Stylesheet(text: string) | WithClient(code: string) | Unchanged(code: string)

  /** `transform`: CSS files first, then the target entry file, anything else untouched. */
  method Transform(code: string, id: string, targetFilePath: string, name: string) returns (r: TransformOutput)
    ensures EndsWith(id, ".css") ==> r == Stylesheet(Join(RewriteLines(Split(code, '\n'), name), "\n"))
    ensures !EndsWith(id, ".css") && EndsWith(id, targetFilePath) ==> r == WithClient(code)
    ensures !EndsWith(id, ".css") && !EndsWith(id, targetFilePath) ==> r == Unchanged(code)
  {
    if EndsWith(id, ".css") {
      var text := CssTransform(code, name);
      return Stylesheet(text);
    }
    if EndsWith(id, targetFilePath) {
      return WithClient(code);
    }
    return Unchanged(code);
  }

  /** `ChangeTypes`. */
  datatype ChangeType = Add | Unlink | Change

  /** `WatcherPayload`. */
  datatype Payload = Payload(topic: string, changeType: ChangeType, path: string, rootComponentPath: string)

  /** One `wsClient.send`: the client's position among the server's clients, and what it was sent. */
  datatype Message = Message(client: nat, payload: Payload)

  /** The messages a broadcast sends: one per client whose `readyState` is 1, in client order. */
  function Deliveries(readyStates: seq<int>, p: Payload): (r: seq<Message>)
    ensures |r| <= |readyStates|
    ensures forall m :: m in r ==> m.payload == p && m.client < |readyStates|
  {
    if |readyStates| == 0 then []
    else
      var n := |readyStates| - 1;
      Deliveries(readyStates[..n], p) + (if readyStates[n] == 1 then [Message(n, p)] else [])
  }

  /** Exactly the open clients receive the payload. */
  lemma {:induction false} DeliveriesReachOpenClients(readyStates: seq<int>, p: Payload, k: nat)
    requires k < |readyStates|
    ensures Message(k, p) in Deliveries(readyStates, p) <==> readyStates[k] == 1
  {
    var n := |readyStates| - 1;
    if k < n {
      DeliveriesReachOpenClients(readyStates[..n], p, k);
    } else {
      assert forall m :: m in Deliveries(readyStates[..n], p) ==> m.client < n;
    }
  }

  /** `${https ? 'https://' : 'http://'}localhost:${port}`. */
  function SrvUrl(https: bool, port: nat): string {
    (if https then "https://" else "http://") + "localhost:" + NatToString(port)
  }

  /** The path the clients reload the root component from. */
  function RootComponentPath(srvUrl: string, outDir: string, targetFilePath: string): string {
    srvUrl + "/" + outDir + "/" + ChunkFromId("src/" + targetFilePath) + ".js"
  }

  /** The watcher side of the plugin: the module-level `fileHashes` table and what the sockets were sent. */
  class HmrServer {
    const topic: string
    const srvUrl: string
    const rootComponentPath: string
    var fileHashes: map<string, string>
    var outbox: seq<Message>

    constructor (topic: string, srvUrl: string, rootComponentPath: string)
      ensures this.topic == topic && this.srvUrl == srvUrl && this.rootComponentPath == rootComponentPath
      ensures fileHashes == map[] && outbox == []
    {
      this.topic := topic;
      this.srvUrl := srvUrl;
      this.rootComponentPath := rootComponentPath;
      fileHashes := map[];
      outbox := [];
    }

    function PayloadFor(changeType: ChangeType, path: string): Payload
      reads this
    {
      Payload(topic, changeType, srvUrl + "/" + path, rootComponentPath)
    }

    /** `wsServer.clients.forEach(...)`: send to every client whose `readyState` is 1. */
    method Broadcast(readyStates: seq<int>, p: Payload)
      modifies this
      ensures outbox == old(outbox) + Deliveries(readyStates, p)
      ensures fileHashes == old(fileHashes)
    {
      var i := 0;
      while i < |readyStates|
        invariant 0 <= i <= |readyStates|
        invariant outbox == old(outbox) + Deliveries(readyStates[..i], p)
        invariant fileHashes == old(fileHashes)
      {
        assert readyStates[..i + 1][..i] == readyStates[..i];
        if readyStates[i] == 1 {
          outbox := outbox + [Message(i, p)];
        }
        i := i + 1;
      }
      assert readyStates[..i] == readyStates;
    }

    /** The 'add' handler: store the file's hash and always broadcast an ADD. */
    method OnAdd(path: string, fileHash: string, readyStates: seq<int>)
      modifies this
      ensures fileHashes == old(fileHashes)[path := fileHash]
      ensures outbox == old(outbox) + Deliveries(readyStates, PayloadFor(Add, path))
    {
      fileHashes := fileHashes[path := fileHash];
      Broadcast(readyStates, PayloadFor(Add, path));
    }

    /**
     * The 'change' handler: nothing happens when a non-empty stored hash
     * equals the new one; otherwise the new hash is stored and a CHANGE is
     * broadcast.
     */
    method OnChange(path: string, currentFileHash: string, readyStates: seq<int>)
      modifies this
      ensures path in old(fileHashes) && old(fileHashes)[path] != "" && currentFileHash == old(fileHashes)[path] ==>
                fileHashes == old(fileHashes) && outbox == old(outbox)
      ensures !(path in old(fileHashes) && old(fileHashes)[path] != "" && currentFileHash == old(fileHashes)[path]) ==>
                fileHashes == old(fileHashes)[path := currentFileHash]
                && outbox == old(outbox) + Deliveries(readyStates, PayloadFor(Change, path))
    {
      if path in fileHashes && fileHashes[path] != "" && currentFileHash == fileHashes[path] {
        return;
      }
      fileHashes := fileHashes[path := currentFileHash];
      Broadcast(readyStates, PayloadFor(Change, path));
    }

    /** The 'unlink' handler: forget the file and broadcast an UNLINK. */
    method OnUnlink(path: string, readyStates: seq<int>)
      modifies this
      ensures fileHashes == old(fileHashes) - {path}
      ensures outbox == old(outbox) + Deliveries(readyStates, PayloadFor(Unlink, path))
    {
      fileHashes := fileHashes - {path};
      Broadcast(readyStates, PayloadFor(Unlink, path));
    }
  }

  /** A second 'change' with the same non-empty hash sends nothing: duplicate saves are not rebroadcast. */
  method ChangeTwice(server: HmrServer, path: string, fileHash: string, readyStates: seq<int>)
    modifies server
    requires fileHash != ""
    ensures server.fileHashes == old(server.fileHashes)[path := fileHash]
    ensures server.outbox == old(server.outbox)
            || server.outbox == old(server.outbox) + Deliveries(readyStates, Payload(server.topic, Change, server.srvUrl + "/" + path, server.rootComponentPath))
  {
    server.OnChange(path, fileHash, readyStates);
    var afterFirst := server.outbox;
    server.OnChange(path, fileHash, readyStates);
    assert server.outbox == afterFirst;
  }
}
