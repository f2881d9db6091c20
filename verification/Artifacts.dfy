/** Artifacts: the digest and the material it is taken of. */
module Artifacts {
  import opened Utf16
  import opened RunEvents

  datatype Provenance = Provenance(
    definition: Definition, definitionDigest: Text, workOrderBindingDigest: Text, producingEventId: Text)

  /** `rest` stands for the fields that no modelled code reads. */
  datatype ArtifactMaterial = ArtifactMaterial(
    artifactId: Text, contentDigest: Text, byteSize: nat, tenantId: Text, producingRunId: Text, producingStepId: Text,
    provenance: Provenance, rest: Text)

  datatype Artifact = Artifact(artifactDigest: Text, material: ArtifactMaterial)
}
