/** The connection lists of server.js's `clientConnectionsMap`: for each client the
    socket ids of its open connections, several when one client has several tabs. */
module Registry {

  /** A connection list with every occurrence of `socketId` spliced out. */
  function Without(connections: seq<string>, socketId: string): (r: seq<string>)
    ensures |r| <= |connections|
    ensures forall id :: id in r <==> id in connections && id != socketId
  {
    if connections == [] then []
    else (if connections[0] == socketId then [] else [connections[0]]) + Without(connections[1..], socketId)
  }

  /** Peeling the element at `i` off a suffix: what one step of the backward splice
      loop adds to the part already cleaned. */
  lemma {:induction false} WithoutSuffix(connections: seq<string>, socketId: string, i: nat)
    requires i < |connections|
    ensures Without(connections[i..], socketId)
         == (if connections[i] == socketId then [] else [connections[i]]) + Without(connections[i + 1..], socketId)
  {
    assert connections[i..][1..] == connections[i + 1..];
  }

  /** The list a client has in the map, the empty list when it has none (what
      getConnectionList creates on first use). */
  function Registered(connectionsMap: map<string, seq<string>>, clientId: string): seq<string> {
    if clientId in connectionsMap then connectionsMap[clientId] else []
  }

  /** A list becomes empty exactly when it held nothing but `socketId`: another tab of
      the same client keeps it alive. */
  lemma {:induction false} WithoutEmptyIff(connections: seq<string>, socketId: string)
    ensures Without(connections, socketId) == [] <==> forall k | 0 <= k < |connections| :: connections[k] == socketId
  {
    if connections != [] {
      WithoutEmptyIff(connections[1..], socketId);
      if connections[0] == socketId {
        assert forall k | 0 < k < |connections| :: connections[k] == connections[1..][k - 1];
      } else {
        assert Without(connections, socketId)[0] == connections[0];
      }
    }
  }

  /** Splicing a socket out of two lists joined is splicing it out of each. */
  lemma {:induction false} WithoutAppend(a: seq<string>, b: seq<string>, socketId: string)
    ensures Without(a + b, socketId) == Without(a, socketId) + Without(b, socketId)
  {
    if a == [] {
      assert a + b == b;
    } else {
      assert (a + b)[0] == a[0] && (a + b)[1..] == a[1..] + b;
      WithoutAppend(a[1..], b, socketId);
    }
  }

  /** A list that never held the socket is left as it is. */
  lemma {:induction false} WithoutAbsent(connections: seq<string>, socketId: string)
    requires socketId !in connections
    ensures Without(connections, socketId) == connections
  {
    if connections != [] {
      WithoutAbsent(connections[1..], socketId);
    }
  }

  /** One step of removeFromConnectionList's backward loop: splicing out position `i`
      when it holds the socket extends the cleaned suffix by one. */
  lemma SpliceStep(original: seq<string>, connections: seq<string>, socketId: string, i: nat)
    requires i < |original| && connections == original[..i + 1] + Without(original[i + 1..], socketId)
    ensures i < |connections| && connections[i] == original[i]
    ensures (if connections[i] == socketId then connections[..i] + connections[i + 1..] else connections)
         == original[..i] + Without(original[i..], socketId)
  {
    WithoutSuffix(original, socketId, i);
    assert original[..i + 1] == original[..i] + [original[i]];
    if original[i] == socketId {
      assert connections[..i] == original[..i];
      assert connections[i + 1..] == Without(original[i + 1..], socketId);
    }
  }
}
