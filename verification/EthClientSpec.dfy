/** The Ethereum light client that runs on NEAR (contracts/near/eth-client), as a value:
    what one accepted header does to the four maps and to the best header. */
module EthClientSpec {
  import opened Prelude

  type Hash = U256

  /** A decoded header; `hash` is the Keccak hash of its encoding. */
  datatype BlockHeader = BlockHeader(
    hash: Hash, parentHash: Hash, number: U64, difficulty: U256,
    gasLimit: U256, gasUsed: U256, timestamp: U64, extraDataLength: nat)

  datatype HeaderInfo = HeaderInfo(totalDifficulty: U256, parentHash: Hash, number: U64)

  datatype Config = Config(hashesGc: U64, finalizedGc: U64, confirmations: U64, validateEthash: bool)

  /** The persistent state. Map keys are header numbers and header hashes. */
  datatype Client = Client(
    best: Hash,
    canonical: map<nat, Hash>,
    all: map<nat, seq<Hash>>,
    headers: map<Hash, BlockHeader>,
    infos: map<Hash, HeaderInfo>)

  function Initial(header: BlockHeader): Client {
    Client(header.hash,
           map[header.number := header.hash],
           map[header.number := [header.hash]],
           map[header.hash := header],
           map[header.hash := HeaderInfo(0, 0, header.number)])
  }

  /** Everything `verify_header` checks; `pow` stands for the Ethash comparison. */
  predicate Verified(cfg: Config, pow: BlockHeader -> bool, header: BlockHeader, prev: BlockHeader) {
    && pow(header)
    && (cfg.validateEthash ==>
          && header.difficulty * 101 <= MAX_U256
          && header.difficulty * 99 / 100 < header.difficulty < header.difficulty * 101 / 100)
    && header.gasUsed <= header.gasLimit
    && prev.gasLimit * 1025 <= MAX_U256
    && prev.gasLimit * 1023 / 1024 < header.gasLimit < prev.gasLimit * 1025 / 1024
    && 5000 <= header.gasLimit
    && prev.timestamp < header.timestamp
    && header.number == prev.number + 1
    && header.parentHash == prev.hash
    && header.extraDataLength <= 32
  }

  /** `add_block_header` without a trusted signer; None is a panic. */
  function AddBlockHeader(cfg: Config, pow: BlockHeader -> bool, s: Client, header: BlockHeader): Option<Client> {
    if header.parentHash !in s.headers then None
    else if !Verified(cfg, pow, header, s.headers[header.parentHash]) then None
    else Record(cfg, s, header)
  }

  /** Fork choice: more total difficulty, or as much and an even difficulty. */
  predicate Overtakes(total: nat, difficulty: nat, bestTotal: nat) {
    total > bestTotal || (total == bestTotal && difficulty % 2 == 0)
  }

  function KnownHashes(s: Client, number: nat): seq<Hash> {
    if number in s.all then s.all[number] else []
  }

  /** The guards of `record_header`. */
  predicate Recordable(cfg: Config, s: Client, header: BlockHeader) {
    && s.best in s.infos
    && s.infos[s.best].number <= header.number + cfg.finalizedGc <= MAX_U64
    && header.parentHash in s.infos
    && header.hash !in KnownHashes(s, header.number)
    && s.infos[header.parentHash].totalDifficulty + header.difficulty <= MAX_U256
  }

  /** The state after a recordable header is stored, before fork choice. */
  function Store(s: Client, header: BlockHeader): Client
    requires header.parentHash in s.infos
    requires s.infos[header.parentHash].totalDifficulty + header.difficulty <= MAX_U256
  {
    s.(all := s.all[header.number := KnownHashes(s, header.number) + [header.hash]],
       headers := s.headers[header.hash := header],
       infos := s.infos[header.hash :=
         HeaderInfo(s.infos[header.parentHash].totalDifficulty + header.difficulty, header.parentHash, header.number)])
  }

  function Record(cfg: Config, s: Client, header: BlockHeader): Option<Client> {
    if !Recordable(cfg, s, header) then None
    else
      var s1 := Store(s, header);
      if !Overtakes(s1.infos[header.hash].totalDifficulty, header.difficulty, s.infos[s.best].totalDifficulty) then Some(s1)
      else if header.number == 0 then None
      else Some(Collect(cfg, Reorganise(s1, header, s.infos[s.best].number), header.number))
  }

  /** Makes `header` the best header and rewrites the canonical index. */
  function Reorganise(s: Client, header: BlockHeader, oldBest: nat): Client
    requires header.number > 0
  {
    s.(best := header.hash,
       canonical := Walk(Clear(s.canonical, header.number, oldBest)[header.number := header.hash],
                         s.infos, header.number - 1, header.parentHash))
  }

  /** Drops the entries above `number` that belong to a longer old chain. */
  function Clear(canonical: map<nat, Hash>, number: nat, oldBest: nat): map<nat, Hash> {
    map n | n in canonical && !(number < n <= oldBest) :: canonical[n]
  }

  /** The reorganisation walk; it stops at the first entry that already agrees. */
  function Walk(canonical: map<nat, Hash>, infos: map<Hash, HeaderInfo>, number: nat, current: Hash): map<nat, Hash>
    decreases number
  {
    var written := canonical[number := current];
    if number == 0 || (number in canonical && canonical[number] == current) || current !in infos then written
    else Walk(written, infos, number - 1, infos[current].parentHash)
  }

  function Collect(cfg: Config, s: Client, number: nat): Client {
    var s1 := if number >= cfg.hashesGc then s.(canonical := TrimCanonical(s.canonical, number - cfg.hashesGc)) else s;
    if number >= cfg.finalizedGc then TrimHeaders(s1, number - cfg.finalizedGc) else s1
  }

  function TrimCanonical(canonical: map<nat, Hash>, number: nat): map<nat, Hash>
    decreases number
  {
    if number !in canonical then canonical
    else if number == 0 then canonical - {number}
    else TrimCanonical(canonical - {number}, number - 1)
  }

  function DropLevel(s: Client, number: nat): Client
    requires number in s.all
  {
    var gone := set h | h in s.all[number];
    s.(all := s.all - {number}, headers := s.headers - gone, infos := s.infos - gone)
  }

  function TrimHeaders(s: Client, number: nat): Client
    decreases number
  {
    if number !in s.all then s
    else if number == 0 then DropLevel(s, number)
    else TrimHeaders(DropLevel(s, number), number - 1)
  }

  function LastBlockNumber(s: Client): nat {
    if s.best in s.infos then s.infos[s.best].number else 0
  }

  /** `block_hash_safe`; the outer option is the overflow panic. */
  function BlockHashSafe(cfg: Config, s: Client, index: U64): Option<Option<Hash>> {
    if index !in s.canonical then Some(None)
    else if index + cfg.confirmations > MAX_U64 then None
    else if index + cfg.confirmations > LastBlockNumber(s) then Some(None)
    else Some(Some(s.canonical[index]))
  }
}
