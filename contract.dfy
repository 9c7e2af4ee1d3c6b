/**
  The NEAR contract: a temperature oracle whose owner (the contract's own account) and
  designated weatherman keep four scalar fields, and two release gates that decide whether a
  "sign this EVM transaction" request goes to the MPC signer. The runtime (`env::`) is the
  explicit `Env` argument; Keccak-256 is the function argument `keccak256`; a panic is a
  `Failure`/`Fail` carrying its message, after which no field has changed.
*/
module NearContract {
  import opened Types
  import Hex
  import Classifier

  /** 1_730_394_000_000_000_000 ns: October 31, 2024, 17:00:00 UTC. */
  const DEFAULT_MATURITY: nat := 1_730_394_000_000_000_000
  /** `Default` cutoff: 30.00 degrees, in hundredths. */
  const DEFAULT_CUTOFF_TEMPERATURE: uint64 := 3000
  const DEFAULT_WEATHERMAN: AccountId := "weatherman.near"

  const ONLY_WEATHERMAN_SETS_TEMPERATURE := "Only the weatherman can set the temperature"
  const ONLY_OWNER_SETS_MATURITY := "Only the owner can set the maturity date"
  const ONLY_OWNER_SETS_CUTOFF := "Only the owner can set the cutoff temperature"
  const ONLY_OWNER_SIGNS_ARBITRARY := "only contract owner can sign arbitrary EVM transactions"
  const CONTRACT_IS_MATURED := "Contract is matured"
  const BELOW_CUTOFF := "Temperature is below the cutoff"
  /** Message of the intended maturity gate; it does not occur in the contract as written. */
  const CONTRACT_NOT_MATURED := "Contract is not matured"

  /** What the runtime tells a call: `predecessor_account_id`, `current_account_id`, `block_timestamp`. */
  datatype Env = Env(predecessor: AccountId, current: AccountId, blockTimestamp: uint64)

  /** Why a call panicked: a `require!`/`assert_eq!` message, or `unwrap` of a failed hex decode. */
  datatype Panic = Message(text: string) | HexUnwrap(error: Hex.HexError)

  /** The request handed to the MPC signer's `sign`. */
  datatype SignRequest = SignRequest(payload: Digest, path: string, keyVersion: uint32)

  /** The caller is the contract's own account. */
  predicate IsOwner(env: Env) {
    env.predecessor == env.current
  }

  /** A release request passes the authorization check: a whitelisted payload, or the owner. */
  ghost predicate Authorized(env: Env, rlpPayload: string) {
    Classifier.IsPublic(rlpPayload) || IsOwner(env)
  }

  class Contract {
    /** Hundredths of a degree (2550 is 25.50). */
    var temperature: uint64
    var cutoffTemperature: uint64
    /** No operation reassigns the weatherman. */
    const weatherman: AccountId
    /** Nanoseconds since the epoch. */
    var maturity: nat

    /** `Contract::new`. */
    constructor New(weatherman: AccountId, cutoffTemperature: uint64)
      ensures temperature == 0 && this.cutoffTemperature == cutoffTemperature
      ensures this.weatherman == weatherman && maturity == DEFAULT_MATURITY
    {
      this.temperature := 0;
      this.cutoffTemperature := cutoffTemperature;
      this.weatherman := weatherman;
      this.maturity := DEFAULT_MATURITY;
    }

    /** `Contract::default`. */
    constructor Default()
      ensures temperature == 0 && cutoffTemperature == 3000
      ensures weatherman == "weatherman.near" && maturity == DEFAULT_MATURITY
    {
      temperature := 0;
      cutoffTemperature := DEFAULT_CUTOFF_TEMPERATURE;
      weatherman := DEFAULT_WEATHERMAN;
      maturity := DEFAULT_MATURITY;
    }

    function GetTemperature(): uint64
      reads this
    {
      temperature
    }

    function GetCutoffTemperature(): uint64
      reads this
    {
      cutoffTemperature
    }

    function GetMaturityDate(): nat
      reads this
    {
      maturity
    }

    function GetWeatherman(): AccountId
    {
      weatherman
    }

    /** `is_above_cutoff`: strictly above. */
    predicate IsAboveCutoff()
      reads this
    {
      temperature > cutoffTemperature
    }

    /** `is_matured` at block time `blockTimestamp`. */
    predicate IsMatured(blockTimestamp: uint64)
      reads this
    {
      blockTimestamp >= maturity
    }

    /** `set_temperature`: the weatherman alone may report, and any value is taken. */
    method SetTemperature(env: Env, temperature: uint64) returns (r: Outcome<Panic>)
      modifies this
      ensures r.Pass? <==> env.predecessor == weatherman
      ensures r.Fail? ==> r.error == Message(ONLY_WEATHERMAN_SETS_TEMPERATURE)
      ensures this.temperature == (if r.Pass? then temperature else old(this.temperature))
      ensures cutoffTemperature == old(cutoffTemperature) && maturity == old(maturity)
    {
      if env.predecessor != weatherman {
        return Fail(Message(ONLY_WEATHERMAN_SETS_TEMPERATURE));
      }
      this.temperature := temperature;
      r := Pass;
    }

    /** `set_maturity_date`: the owner alone may move the deadline, to any value. */
    method SetMaturityDate(env: Env, maturityDate: nat) returns (r: Outcome<Panic>)
      modifies this
      ensures r.Pass? <==> IsOwner(env)
      ensures r.Fail? ==> r.error == Message(ONLY_OWNER_SETS_MATURITY)
      ensures maturity == (if r.Pass? then maturityDate else old(maturity))
      ensures temperature == old(temperature) && cutoffTemperature == old(cutoffTemperature)
    {
      if env.predecessor != env.current {
        return Fail(Message(ONLY_OWNER_SETS_MATURITY));
      }
      maturity := maturityDate;
      r := Pass;
    }

    /** `set_cutoff_temperature`: the owner alone may move the threshold, to any value. */
    method SetCutoffTemperature(env: Env, cutoffTemperature: uint64) returns (r: Outcome<Panic>)
      modifies this
      ensures r.Pass? <==> IsOwner(env)
      ensures r.Fail? ==> r.error == Message(ONLY_OWNER_SETS_CUTOFF)
      ensures this.cutoffTemperature == (if r.Pass? then cutoffTemperature else old(this.cutoffTemperature))
      ensures temperature == old(temperature) && maturity == old(maturity)
    {
      if env.predecessor != env.current {
        return Fail(Message(ONLY_OWNER_SETS_CUTOFF));
      }
      this.cutoffTemperature := cutoffTemperature;
      r := Pass;
    }

    /**
      `liquidate`: releases a signing request while the contract is not matured and the
      temperature is above the cutoff. The checks run in the order authorization, hex decode,
      not matured, above cutoff, and the first that fails decides the panic. Without a
      `modifies` clause, no field changes.
    */
    method Liquidate(env: Env, keccak256: seq<uint8> -> Digest, rlpPayload: string, path: string, keyVersion: uint32)
      returns (r: Result<SignRequest, Panic>)
      ensures r.Success? <==>
                Authorized(env, rlpPayload) && Hex.Decode(rlpPayload).Success?
                && !IsMatured(env.blockTimestamp) && IsAboveCutoff()
      ensures r.Success? ==> r.value == SignRequest(keccak256(Hex.Decode(rlpPayload).value), path, keyVersion)
      ensures !Authorized(env, rlpPayload) ==> r == Failure(Message(ONLY_OWNER_SIGNS_ARBITRARY))
      ensures Authorized(env, rlpPayload) && Hex.Decode(rlpPayload).Failure? ==>
                r == Failure(HexUnwrap(Hex.Decode(rlpPayload).error))
      ensures Authorized(env, rlpPayload) && Hex.Decode(rlpPayload).Success? && IsMatured(env.blockTimestamp) ==>
                r == Failure(Message(CONTRACT_IS_MATURED))
      ensures (Authorized(env, rlpPayload) && Hex.Decode(rlpPayload).Success? && !IsMatured(env.blockTimestamp)
               && !IsAboveCutoff()) ==> r == Failure(Message(BELOW_CUTOFF))
    {
      var owner := env.predecessor == env.current;
      var public := Classifier.ClassifyPayload(rlpPayload);
      if !public && !owner {
        return Failure(Message(ONLY_OWNER_SIGNS_ARBITRARY));
      }
      var decoded := Hex.Decode(rlpPayload);
      if decoded.Failure? {
        return Failure(HexUnwrap(decoded.error));
      }
      var payload := keccak256(decoded.value);
      if IsMatured(env.blockTimestamp) {
        return Failure(Message(CONTRACT_IS_MATURED));
      }
      if !IsAboveCutoff() {
        return Failure(Message(BELOW_CUTOFF));
      }
      r := Success(SignRequest(payload, path, keyVersion));
    }

    /**
      `mature` as written: authorization, then hex decode, then the request. The maturity test
      only prints, so neither the clock, the temperature nor the cutoff takes part: none of them
      appears in this contract. No field changes.
    */
    method Mature(env: Env, keccak256: seq<uint8> -> Digest, rlpPayload: string, path: string, keyVersion: uint32)
      returns (r: Result<SignRequest, Panic>)
      ensures r.Success? <==> Authorized(env, rlpPayload) && Hex.Decode(rlpPayload).Success?
      ensures r.Success? ==> r.value == SignRequest(keccak256(Hex.Decode(rlpPayload).value), path, keyVersion)
      ensures !Authorized(env, rlpPayload) ==> r == Failure(Message(ONLY_OWNER_SIGNS_ARBITRARY))
      ensures Authorized(env, rlpPayload) && Hex.Decode(rlpPayload).Failure? ==>
                r == Failure(HexUnwrap(Hex.Decode(rlpPayload).error))
    {
      var owner := env.predecessor == env.current;
      var public := Classifier.ClassifyPayload(rlpPayload);
      if !public && !owner {
        return Failure(Message(ONLY_OWNER_SIGNS_ARBITRARY));
      }
      var decoded := Hex.Decode(rlpPayload);
      if decoded.Failure? {
        return Failure(HexUnwrap(decoded.error));
      }
      var payload := keccak256(decoded.value);
      r := Success(SignRequest(payload, path, keyVersion));
    }

    /**
      ASSUMPTION, not the contract as written: `mature` with the maturity gate its comment
      describes, rejecting a request before the deadline. With it, `Liquidate` (not matured) and
      this gate (matured) never release at the same block time.
    */
    method MatureGated(env: Env, keccak256: seq<uint8> -> Digest, rlpPayload: string, path: string, keyVersion: uint32)
      returns (r: Result<SignRequest, Panic>)
      ensures r.Success? <==>
                Authorized(env, rlpPayload) && Hex.Decode(rlpPayload).Success? && IsMatured(env.blockTimestamp)
      ensures r.Success? ==> r.value == SignRequest(keccak256(Hex.Decode(rlpPayload).value), path, keyVersion)
      ensures !Authorized(env, rlpPayload) ==> r == Failure(Message(ONLY_OWNER_SIGNS_ARBITRARY))
      ensures Authorized(env, rlpPayload) && Hex.Decode(rlpPayload).Failure? ==>
                r == Failure(HexUnwrap(Hex.Decode(rlpPayload).error))
      ensures Authorized(env, rlpPayload) && Hex.Decode(rlpPayload).Success? && !IsMatured(env.blockTimestamp) ==>
                r == Failure(Message(CONTRACT_NOT_MATURED))
    {
      var owner := env.predecessor == env.current;
      var public := Classifier.ClassifyPayload(rlpPayload);
      if !public && !owner {
        return Failure(Message(ONLY_OWNER_SIGNS_ARBITRARY));
      }
      var decoded := Hex.Decode(rlpPayload);
      if decoded.Failure? {
        return Failure(HexUnwrap(decoded.error));
      }
      var payload := keccak256(decoded.value);
      if !IsMatured(env.blockTimestamp) {
        return Failure(Message(CONTRACT_NOT_MATURED));
      }
      r := Success(SignRequest(payload, path, keyVersion));
    }
  }

  /**
    The strict comparison at the `liquidate` gate: an authorized, decodable request before
    maturity is refused when the temperature equals the cutoff.
  */
  method LiquidateAtCutoffIsRefused(c: Contract, env: Env, keccak256: seq<uint8> -> Digest, rlpPayload: string,
                                    path: string, keyVersion: uint32)
    returns (r: Result<SignRequest, Panic>)
    requires c.temperature == c.cutoffTemperature
    requires Authorized(env, rlpPayload) && Hex.Decode(rlpPayload).Success? && !c.IsMatured(env.blockTimestamp)
    ensures r == Failure(Message(BELOW_CUTOFF))
  {
    r := c.Liquidate(env, keccak256, rlpPayload, path, keyVersion);
  }

  /** The owner lowering the cutoff below the reported temperature makes it above the cutoff. */
  method LoweringCutoffMakesAbove(c: Contract, env: Env, cutoffTemperature: uint64) returns (r: Outcome<Panic>)
    requires IsOwner(env) && cutoffTemperature < c.temperature
    modifies c
    ensures r.Pass? && c.IsAboveCutoff()
  {
    r := c.SetCutoffTemperature(env, cutoffTemperature);
  }

  /**
    At any one block time, `Liquidate` (not matured) and the gated `mature` (matured) never both
    release a request.
  */
  method GatedReleasesAreExclusive(c: Contract, env: Env, keccak256: seq<uint8> -> Digest, rlpPayload: string,
                                   path: string, keyVersion: uint32)
    returns (liquidated: Result<SignRequest, Panic>, matured: Result<SignRequest, Panic>)
    ensures !(liquidated.Success? && matured.Success?)
    ensures matured.Success? <==> Authorized(env, rlpPayload) && Hex.Decode(rlpPayload).Success? && c.IsMatured(env.blockTimestamp)
  {
    liquidated := c.Liquidate(env, keccak256, rlpPayload, path, keyVersion);
    matured := c.MatureGated(env, keccak256, rlpPayload, path, keyVersion);
  }

  /** With the deadline fixed, once matured the contract stays matured at every later block. */
  lemma MaturityIsMonotone(c: Contract, t: uint64, t': uint64)
    requires t <= t' && c.IsMatured(t)
    ensures c.IsMatured(t')
  {
  }

  /**
    The discrepancy of `mature` as written: at block time 0, long before the default deadline,
    the owner still obtains a signing request.
  */
  method MatureReleasesBeforeMaturity(keccak256: seq<uint8> -> Digest) returns (r: Result<SignRequest, Panic>)
    ensures r.Success? && r.value.payload == keccak256([])
  {
    var c := new Contract.New(DEFAULT_WEATHERMAN, DEFAULT_CUTOFF_TEMPERATURE);
    var env := Env("omnibets.testnet", "omnibets.testnet", 0);
    assert !c.IsMatured(env.blockTimestamp);
    r := c.Mature(env, keccak256, "", "ethereum-1", 0);
  }

  /**
    A run of the contract: construct with cutoff 25.00, let the weatherman report 26.50 and
    24.50, and let the owner release and move the cutoff. The weatherman is not the owner, so
    the weatherman cannot move the cutoff.
  */
  method CutoffScenario(keccak256: seq<uint8> -> Digest)
  {
    var weatherman := "weatherman.near";
    var own := "omnibets.testnet";
    var c := new Contract.New(weatherman, 2500);
    var byWeatherman := Env(weatherman, own, 0);
    var byOwner := Env(own, own, 0);
    var byStranger := Env("unauthorized.near", own, 0);

    var ok := c.SetTemperature(byStranger, 2550);
    assert ok == Fail(Message(ONLY_WEATHERMAN_SETS_TEMPERATURE)) && c.temperature == 0;

    ok := c.SetTemperature(byWeatherman, 2650);
    assert ok.Pass? && c.IsAboveCutoff();
    var r := c.Liquidate(byOwner, keccak256, "", "ethereum-1", 0);
    assert r.Success?;

    ok := c.SetTemperature(byWeatherman, 2450);
    assert !c.IsAboveCutoff();
    r := c.Liquidate(byOwner, keccak256, "", "ethereum-1", 0);
    assert r == Failure(Message(BELOW_CUTOFF));

    ok := c.SetCutoffTemperature(byWeatherman, 2400);
    assert ok.Fail? && c.cutoffTemperature == 2500;
    ok := c.SetCutoffTemperature(byOwner, 2400);
    assert ok.Pass? && c.IsAboveCutoff();

    ok := c.SetMaturityDate(byOwner, 0);
    assert c.IsMatured(byOwner.blockTimestamp);
    r := c.Liquidate(byOwner, keccak256, "", "ethereum-1", 0);
    assert r == Failure(Message(CONTRACT_IS_MATURED));
  }
}
