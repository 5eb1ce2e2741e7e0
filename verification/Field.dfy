/** The BN254 scalar field and the note scheme built on its Poseidon hash. */
module Field {

  import opened Common

  /** Order of the BN254 scalar field. */
  const P: nat := 21888242871839275222246405745257275088548364400416034343698204186575808495617

  const TWO_256: nat := 0x1_0000000000000000000000000000000000000000000000000000000000000000

  type Fr = x: nat | x < P

  /** 32 little-endian bytes, as the number they spell. */
  type FieldBytes = x: nat | x < TWO_256

  /** Rejects encodings that are not already reduced. */
  function FrFromBytes(b: FieldBytes): Option<Fr> {
    if b < P then Some(b) else None
  }

  function Add(a: Fr, b: Fr): Fr {
    (a + b) % P
  }

  /** Poseidon with one, two and three inputs. */
  datatype Poseidon = Poseidon(h1: Fr -> Fr, h2: (Fr, Fr) -> Fr, h3: (Fr, Fr, Fr) -> Fr)
  {
    function OwnerKey(s: Fr): Fr {
      h1(s)
    }

    /** Hides the owner and the blinding of a note; revealed at shield time. */
    function NoteSecret(pk: Fr, blinding: Fr): Fr {
      h2(pk, blinding)
    }

    function Commitment(asset: Fr, amount: Fr, secret: Fr): Fr {
      h3(asset, amount, secret)
    }

    function Nullifier(commitment: Fr, leafIndex: Fr, s: Fr): Fr {
      h3(commitment, leafIndex, s)
    }
  }
}
