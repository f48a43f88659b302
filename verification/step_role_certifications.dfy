/** The Target Role step (src/components/wizard/StepRole.tsx): picking a
    role emits only `targetRole`. */
module StepRole {
  import opened Wrappers
  import opened WizardTypes

  function PickRole(role: string): (p: WizardPatch)
    ensures Keys(p) == {TargetRoleKey}
    ensures PatchField(p, TargetRoleKey) == Some(TextValue(role))
  {
    EmptyPatch.(targetRole := Some(role))
  }
}

/** The Certifications step (src/components/wizard/StepCertifications.tsx):
    the text area emits only `certifications`, unsplit. */
module StepCertifications {
  import opened Wrappers
  import opened WizardTypes

  function EditCertifications(text: string): (p: WizardPatch)
    ensures Keys(p) == {CertificationsKey}
    ensures PatchField(p, CertificationsKey) == Some(TextValue(text))
  {
    EmptyPatch.(certifications := Some(text))
  }
}
