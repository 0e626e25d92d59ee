TestResult.DisplayName,TestResult.Outcome,TestResult.Duration,TestResult.ResourceCount,RandomSeed
AdminLayout.SegmentsAfterRoot (correctness),Failed,00:00:30.1688299,36074262,0
AdminLayout.SegmentsAfterRoot (well-formedness),Passed,00:00:00.1796876,24176,0
