TestResult.DisplayName,TestResult.Outcome,TestResult.Duration,TestResult.ResourceCount,RandomSeed
Validators.MaskedPhoneAccepted (correctness),Passed,00:00:00.2773100,372777,0
