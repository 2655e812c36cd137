/**
  Node identifiers of the client adaptor: a flag bit, a cluster id, a node id and a port
  index packed by addition into the 32-bit number that stands in for an OSD id.  Masks and
  shifts are written as division and remainder by powers of two.
 */
module NodeId {

  const WORD: nat := 0x1_0000_0000

  /** `get_node_id`: node << 4, plus 1 << 20, plus cluster << 16, plus port, in `uint32_t`. */
  function Pack(node: nat, cluster: nat, port: nat): nat {
    (node * 16 + 0x10_0000 + cluster * 0x1_0000 + port) % WORD
  }

  /** (osd & 0xfff0) >> 4 */
  function NodeOf(osd: nat): nat { osd / 16 % 0x1000 }

  /** osd & 0xf */
  function PortOf(osd: nat): nat { osd % 16 }

  /** (osd & 0xf0000) >> 16 */
  function ClusterOf(osd: nat): nat { osd / 0x1_0000 % 16 }

  /** `check_osd_value` on a number that is not the homeless -1: osd >> 20 is not zero. */
  predicate IsCacheNode(osd: nat) { osd / 0x10_0000 != 0 }

  /** The decoding used when the node view changes: (osd & ~(1 << 20)) >> 4. */
  function ViewNodeOf(osd: nat): nat {
    (if osd / 0x10_0000 % 2 == 1 then osd - 0x10_0000 else osd) / 16
  }

  /** A node-view change closes this session. */
  predicate Closes(osd: nat, available: set<nat>) {
    IsCacheNode(osd) && ViewNodeOf(osd) !in available
  }

  /** In range, no addition carries and every field comes back. */
  lemma PackRecovers(node: nat, cluster: nat, port: nat)
    requires node < 0x1000 && cluster < 16 && port < 16
    ensures var osd := Pack(node, cluster, port);
            NodeOf(osd) == node && ClusterOf(osd) == cluster && PortOf(osd) == port && IsCacheNode(osd)
  {
  }

  /** A number is a cache node's exactly from 2^20 on: a node view never closes the session of a plain OSD. */
  lemma PlainOsd(osd: nat, available: set<nat>)
    ensures IsCacheNode(osd) <==> osd >= 0x10_0000
    ensures osd < 0x10_0000 ==> !Closes(osd, available)
  {
  }

  /** Twelve bits of node id are exactly what the mask can give back. */
  lemma NodeRecoveredIff(node: nat, cluster: nat, port: nat)
    requires node < WORD && cluster < WORD && port < 16
    ensures NodeOf(Pack(node, cluster, port)) == node <==> node < 0x1000
  {
    var sum := node * 16 + 0x10_0000 + cluster * 0x1_0000 + port;
    var q := sum / WORD;
    var upper := node + 0x1000 * (16 + cluster - 0x1_0000 * q);
    assert sum == WORD * q + Pack(node, cluster, port);
    assert Pack(node, cluster, port) == 16 * upper + port;
    UpperPart(upper, port);
    LowerTwelve(node, 16 + cluster - 0x1_0000 * q);
  }

  lemma UpperPart(upper: int, port: nat)
    requires port < 16
    ensures (16 * upper + port) / 16 == upper
  {
  }

  lemma LowerTwelve(node: nat, k: int)
    ensures (node + 0x1000 * k) % 0x1000 == node % 0x1000
  {
  }

  lemma PackInjective(node: nat, cluster: nat, port: nat, node': nat, cluster': nat, port': nat)
    requires node < 0x1000 && cluster < 16 && port < 16
    requires node' < 0x1000 && cluster' < 16 && port' < 16
    requires Pack(node, cluster, port) == Pack(node', cluster', port')
    ensures node == node' && cluster == cluster' && port == port'
  {
    PackRecovers(node, cluster, port);
    PackRecovers(node', cluster', port');
  }

  /** The node-view decoding gives the node back exactly for cluster 0. */
  lemma ViewDecodeIff(node: nat, cluster: nat, port: nat)
    requires node < 0x1000 && cluster < 16 && port < 16
    ensures ViewNodeOf(Pack(node, cluster, port)) == node + cluster * 0x1000
    ensures ViewNodeOf(Pack(node, cluster, port)) == node <==> cluster == 0
  {
    var osd := Pack(node, cluster, port);
    assert osd == 0x10_0000 + (cluster * 0x1_0000 + node * 16 + port);
    assert osd / 0x10_0000 == 1;
  }

  /**
    A node-view change closes the right sessions exactly in cluster 0: elsewhere it closes
    them all, even those of nodes that are still available.
   */
  lemma ViewChangeCloses(node: nat, cluster: nat, port: nat, available: set<nat>)
    requires node < 0x1000 && cluster < 16 && port < 16
    requires forall n :: n in available ==> n < 0x1000
    ensures Closes(Pack(node, cluster, port), available) <==> cluster != 0 || node !in available
  {
    PackRecovers(node, cluster, port);
    ViewDecodeIff(node, cluster, port);
  }
}
