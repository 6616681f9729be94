/**
 * The two append-only logs of the donation backend: the donations list and
 * the simulated blockchain log. Each is persisted as a JSON array; here the
 * array is an in-memory sequence owned by an object, and an operation that
 * reads the file, pushes one record and writes the file back becomes a method
 * that reassigns that sequence.
 */
module Logs {

  import opened Wrappers

  // ---------- the simulated blockchain log ----------

  /** The network name written into every blockchain log record. */
  const SimulatedNetwork: string := "Simulated chain"

  /** One record of the blockchain log; `txId` and `createdAt` are supplied by the caller. */
  datatype LogRecord = LogRecord(txId: int, metadataHash: string, network: string, createdAt: string)

  /** The log after pushing the record for `metadataHash`. */
  function Appended(log: seq<LogRecord>, metadataHash: string, txId: int, createdAt: string)
    : (r: seq<LogRecord>)
    ensures |r| == |log| + 1
    ensures r[..|log|] == log
    ensures r[|log|].metadataHash == metadataHash && r[|log|].network == SimulatedNetwork
    ensures r[|log|].txId == txId && r[|log|].createdAt == createdAt
  {
    log + [LogRecord(txId, metadataHash, SimulatedNetwork, createdAt)]
  }

  /** Every record of the log names the simulated network. */
  ghost predicate AllSimulated(log: seq<LogRecord>)
  {
    forall i :: 0 <= i < |log| ==> log[i].network == SimulatedNetwork
  }

  /** Appending keeps every record on the simulated network. */
  lemma AppendedKeepsSimulated(log: seq<LogRecord>, metadataHash: string, txId: int, createdAt: string)
    ensures AllSimulated(log) ==> AllSimulated(Appended(log, metadataHash, txId, createdAt))
  {
    var r := Appended(log, metadataHash, txId, createdAt);
    if AllSimulated(log) {
      forall i | 0 <= i < |r| ensures r[i].network == SimulatedNetwork {
        if i < |log| {
          assert r[i] == r[..|log|][i];
        }
      }
    }
  }

  /** The blockchain log file, held in memory. */
  class BlockchainLog {
    var records: seq<LogRecord>

    /** Every record of the log names the simulated network, as those written by `AppendBlockchainRecord` do. */
    ghost predicate AllOnSimulatedNetwork()
      reads this
    {
      AllSimulated(records)
    }

    /** A freshly created store holds the empty array. */
    constructor ()
      ensures records == [] && AllOnSimulatedNetwork()
    {
      records := [];
    }

    /** The whole log, as read back from storage. */
    method ReadBlockchainLog() returns (log: seq<LogRecord>)
      ensures log == records
    {
      log := records;
    }

    /** Read the log, push one record for `metadataHash`, write the log back. */
    method AppendBlockchainRecord(metadataHash: string, txId: int, createdAt: string)
      modifies this
      ensures records == Appended(old(records), metadataHash, txId, createdAt)
      ensures old(AllOnSimulatedNetwork()) ==> AllOnSimulatedNetwork()
    {
      var log := ReadBlockchainLog();
      log := log + [LogRecord(txId, metadataHash, SimulatedNetwork, createdAt)];
      AppendedKeepsSimulated(records, metadataHash, txId, createdAt);
      records := log;
    }
  }

  // ---------- the donations list ----------

  /** The receipt built for a donation; a missing note is `None`. */
  datatype Receipt = Receipt(
    anonymousId: string,
    amount: real,
    note: Option<string>,
    category: string,
    currency: string,
    createdAt: string)

  /** One entry of the donations list. */
  datatype DonationRecord = DonationRecord(id: int, metadataHash: string, receipt: Receipt)

  /** The donations file, held in memory. */
  class DonationStore {
    var donations: seq<DonationRecord>

    /** A freshly created store holds the empty array. */
    constructor ()
      ensures donations == []
    {
      donations := [];
    }

    /** The whole list, as read back from storage. */
    method ReadDonations() returns (all: seq<DonationRecord>)
      ensures all == donations
    {
      all := donations;
    }

    /** Read the list, push `donation`, write the list back. */
    method SaveDonation(donation: DonationRecord)
      modifies this
      ensures donations == old(donations) + [donation]
      ensures |donations| == |old(donations)| + 1
      ensures donations[..|old(donations)|] == old(donations)
      ensures donations[|old(donations)|] == donation
    {
      var all := ReadDonations();
      all := all + [donation];
      donations := all;
    }
  }
}
