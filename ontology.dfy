/**
 * The cryo-EM ontology annotation of workflow ports: the `ontology_name`,
 * `ontology_url` and `ontology_dict` attributes of the CWL class, and the format
 * expression used for every input and output port.
 */
module Ontology {
  import opened Wrappers

  const Name: string := "cryoem"
  const Url: string := "http://scipion.i2pc.es/ontology/"

  /**
   * The ontology term of an object class name, `None` for a name the table does
   * not list (the table's entries, in its own order).
   */
  function Code(cls: string): Option<string> {
    match cls
    case "Acquisition" => Some("CRYOEM_0000004")
    case "AtomStruct" => Some("CRYOEM_0000005")
    case "Coordinate" => Some("CRYOEM_0000006")
    case "CTFModel" => Some("CRYOEM_0000007")
    case "DefocusGroup" => Some("CRYOEM_0000008")
    case "EMSet" => Some("CRYOEM_0000009")
    case "SetOfAtomStructs" => Some("CRYOEM_0000023")
    case "SetOfClasses" => Some("CRYOEM_0000024")
    case "SetOfClasses2D" => Some("CRYOEM_0000065")
    case "SetOfClasses3D" => Some("CRYOEM_0000066")
    case "SetOfClassesVol" => Some("CRYOEM_0000067")
    case "SetOfCoordinates" => Some("CRYOEM_0000025")
    case "SetOfCTF" => Some("CRYOEM_0000026")
    case "SetOfDefocusGroup" => Some("CRYOEM_0000027")
    case "SetOfFSCs" => Some("CRYOEM_0000028")
    case "SetOfImages" => Some("CRYOEM_0000029")
    case "SetOfImages2D" => Some("CRYOEM_0000068")
    case "SetOfAverages" => Some("CRYOEM_0000094")
    case "SetOfMicrographs" => Some("CRYOEM_0000095")
    case "SetOfMovies" => Some("CRYOEM_0000096")
    case "SetOfParticles" => Some("CRYOEM_0000097")
    case "Class2D" => Some("CRYOEM_0000104")
    case "Class3D" => Some("CRYOEM_0000105")
    case "SetOfMovieParticles" => Some("CRYOEM_0000106")
    case "SetOfImages3D" => Some("CRYOEM_0000069")
    case "SetOfVolumes" => Some("CRYOEM_0000098")
    case "ClassVol" => Some("CRYOEM_0000107")
    case "SetOfNormalModes" => Some("CRYOEM_0000030")
    case "SetOfSequences" => Some("CRYOEM_0000031")
    case "FSC" => Some("CRYOEM_0000010")
    case "Image" => Some("CRYOEM_0000011")
    case "Image2D" => Some("CRYOEM_0000032")
    case "Average" => Some("CRYOEM_0000070")
    case "Mask" => Some("CRYOEM_0000071")
    case "Micrograph" => Some("CRYOEM_0000072")
    case "Movie" => Some("CRYOEM_0000073")
    case "Particle" => Some("CRYOEM_0000074")
    case "MovieParticle" => Some("CRYOEM_0000099")
    case "Image3D" => Some("CRYOEM_0000033")
    case "Volume" => Some("CRYOEM_0000075")
    case "VolumeMask" => Some("CRYOEM_0000076")
    case "NormalMode" => Some("CRYOEM_0000012")
    case "Sequence" => Some("CRYOEM_0000013")
    case "Transform" => Some("CRYOEM_0000014")
    case _ => None
  }

  /** The `format` of a port whose object has class name `cls`. */
  function Format(cls: string): string {
    match Code(cls)
    case Some(code) => Name + ":" + code
    case None => "unknown"
  }

  /**
   * A listed class is annotated with the namespace prefix followed by its term; any
   * other class, and only such a class, is annotated "unknown". The table in `Code`
   * is itself the specification of the terms: it lists the same classes and terms,
   * in the same order, as the source's dictionary.
   */
  lemma FormatSpec(cls: string)
    ensures Code(cls).Some? ==> Format(cls) == "cryoem:" + Code(cls).value
    ensures Format(cls) == "unknown" <==> Code(cls).None?
  {
    if Code(cls).Some? {
      assert Format(cls)[0] == 'c' != "unknown"[0];
    }
  }

  /** The worked cases: a volume port, a particle set port and a port of an unlisted class. */
  lemma FormatExamples()
    ensures Format("Volume") == "cryoem:CRYOEM_0000075"
    ensures Format("SetOfParticles") == "cryoem:CRYOEM_0000097"
    ensures Format("UnknownWidget") == "unknown"
  {
  }
}
