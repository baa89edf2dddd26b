/** Records of who provides a key (`Peer` in dht/peer_store.go). */
module PeerRecords {
  datatype Option<+T> = None | Some(value: T)

  /** `published` is the time of the PUT that created the record. */
  datatype Peer = Peer(ip: nat, port: nat, asn: int, published: int)
}
