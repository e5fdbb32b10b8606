/** State transitions and the errors of the RGB extension of a PSBT. */
module Protocol {
  import opened Base

  const MAX_U16 := 0xFFFF
  const MAX_U24 := 0xFF_FFFF

  datatype State = Amount(value: nat) | Data(data: Bytes) | Void

  datatype Seal = Revealed(vout: nat) | Concealed(secret: Bytes)

  datatype Assignment = Assignment(ty: U16, seal: Seal, state: State)

  /** What an operation id commits to. */
  datatype Content = Content(
    contractId: ContractId,
    transitionType: U16,
    inputs: set<Opout>,
    outputs: seq<Assignment>)

  /** A transition carries, besides its committed content, whatever parts of it are revealed. */
  datatype Transition = Transition(content: Content, disclosed: Bytes) {
    /* The order in which the ordered set of inputs iterates. */
    ghost function Inputs(): seq<Opout> {
      Ascending(content.inputs)
    }
  }

  /** The operations of external crates a PSBT relies on. */
  datatype Library = Library(
    opid: Content -> OpId,
    encode: Transition -> Bytes,
    decode: Bytes -> Option<Transition>,
    mergeReveal: (Transition, Transition) -> Option<Transition>)
  {
    /* Strict encoding is bijective; merging reveals never alters what is committed to. */
    ghost predicate Lawful() {
      && (forall t :: decode(encode(t)) == Some(t))
      && (forall t, u :: mergeReveal(t, u).Some? ==> mergeReveal(t, u).value.content == t.content)
      && (forall t :: mergeReveal(t, t) == Some(t))
    }

    function Id(t: Transition): OpId {
      opid(t.content)
    }
  }

  datatype CloseMethod = OpretFirst | TapretFirst

  datatype MpcError =
    | InvalidKeyValue
    | MessageMapTooLarge
    | KeyAlreadyPresent
    | OutputAlreadyHasCommitment
    | Tree
    | Finalized

  datatype RgbError =
    | DoubleSpend
    | UnrelatedTransitions(prev: OpId, opid: OpId)
    | NoContracts
    | NoContractConsumers
    | InvalidTransitionsNumber(contractId: ContractId, count: nat)
    | InvalidInputsNumber(count: nat)
    | InvalidContractId
    | InvalidOpoutAndOpidsData(length: nat)
    | KnownTransitionsInconsistency
    | NoCloseMethod
    | InvalidCloseMethod
    | NoHostOutput(closeMethod: CloseMethod)
    | TooManyTransitionsInBundle
    | TransitionTooBig(opid: OpId)
    | InvalidTransition
    | Mpc(mpc: MpcError)
}
